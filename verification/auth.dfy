/** Request validation in sign-up and log-in, and the role gate in front of the
    product-changing routes. Hashing (beyond its refusal of a non-string password),
    token signing and the user queries are outside the model; whether the email is
    already registered is a parameter. */
module Auth {
  import opened Wrappers
  import opened JsValues

  /** The roles an account can hold. */
  datatype Role = Admin | Supplier | User

  /** The role's stored name. */
  function RoleName(r: Role): string {
    match r
    case Admin => "admin"
    case Supplier => "supplier"
    case User => "user"
  }

  /** `["admin", "supplier", "user"].includes(v)`: the role `v` names, if any. */
  function RoleOf(v: Json): (r: Option<Role>)
    ensures r.Some? <==> v == Str("admin") || v == Str("supplier") || v == Str("user")
    ensures r.Some? ==> v == Str(RoleName(r.value))
  {
    if v == Str("admin") then Some(Admin)
    else if v == Str("supplier") then Some(Supplier)
    else if v == Str("user") then Some(User)
    else None
  }

  /** The contact details stored for a supplier (serialised with `JSON.stringify`). */
  datatype Contact = Contact(phone: Json, email: Json)

  /** What `signUp` answers: the three 400s for the request itself, the 400 for an
      email already in use, the 500 when hashing rejects the password, or the account
      it creates (with the supplier's contact details when the role is `supplier`). */
  datatype SignUpOutcome =
    | MissingCredentials
    | InvalidRole
    | MissingSupplierFields
    | EmailInUse
    | HashRejected
    | Registered(role: Role, contact: Option<Contact>)

  /** The supplier-only fields are all given: `company_name`, `contact_info` with a
      `phone`, `company_address` and `sales_area`. */
  predicate SupplierFieldsGiven(body: map<string, Json>) {
    && Truthy(Field(body, "company_name"))
    && Truthy(Field(body, "contact_info"))
    && Truthy(Get(Field(body, "contact_info"), "phone"))
    && Truthy(Field(body, "company_address"))
    && Truthy(Field(body, "sales_area"))
  }

  /** `name`, `email` and `password` are all truthy. */
  predicate CredentialsGiven(body: map<string, Json>) {
    Truthy(Field(body, "name")) && Truthy(Field(body, "email")) && Truthy(Field(body, "password"))
  }

  /** `bcrypt.hash(password, 10)` accepts the password: it takes a string or a
      `Buffer`, and a parsed JSON body holds no `Buffer`. */
  predicate HashablePassword(body: map<string, Json>) {
    Field(body, "password").Str?
  }

  /** `role || "supplier"` once the role has been checked: the named role, `Supplier`
      when no role is given, and `None` when a given role names none of the three. */
  function ChosenRole(body: map<string, Json>): (r: Option<Role>)
    ensures !Truthy(Field(body, "role")) ==> r == Some(Supplier)
    ensures Truthy(Field(body, "role")) ==> r == RoleOf(Field(body, "role"))
  {
    var role := Field(body, "role");
    if Truthy(role) then RoleOf(role) else Some(Supplier)
  }

  /** `signUp`. `emailTaken` is whether the user lookup by email found a row. The four
      400s are checked in order: credentials, role, supplier fields (for suppliers only),
      then the email; a password hashing rejects then ends in the 500 of the `catch`. */
  function SignUp(body: map<string, Json>, emailTaken: bool): (r: SignUpOutcome)
    ensures r.MissingCredentials? <==> !CredentialsGiven(body)
    ensures r.InvalidRole? <==> CredentialsGiven(body) && ChosenRole(body).None?
    ensures r.MissingSupplierFields? <==>
              CredentialsGiven(body) && ChosenRole(body) == Some(Supplier) && !SupplierFieldsGiven(body)
    ensures r.EmailInUse? <==>
              && CredentialsGiven(body) && ChosenRole(body).Some?
              && (ChosenRole(body) == Some(Supplier) ==> SupplierFieldsGiven(body))
              && emailTaken
    ensures r.HashRejected? <==>
              && CredentialsGiven(body) && ChosenRole(body).Some?
              && (ChosenRole(body) == Some(Supplier) ==> SupplierFieldsGiven(body))
              && !emailTaken && !HashablePassword(body)
    ensures r.Registered? ==> Some(r.role) == ChosenRole(body)
    ensures r.Registered? && r.role == Supplier ==>
              r.contact == Some(Contact(Get(Field(body, "contact_info"), "phone"), Field(body, "email")))
    ensures r.Registered? && r.role != Supplier ==> r.contact.None?
  {
    var role := Field(body, "role");
    if !Truthy(Field(body, "name")) || !Truthy(Field(body, "email")) || !Truthy(Field(body, "password")) then
      MissingCredentials
    else if Truthy(role) && RoleOf(role).None? then InvalidRole
    else
      var userRole := if Truthy(role) then RoleOf(role).value else Supplier;
      if userRole == Supplier && !SupplierFieldsGiven(body) then MissingSupplierFields
      else if emailTaken then EmailInUse
      else if !HashablePassword(body) then HashRejected
      else
        var info := Field(body, "contact_info");
        var phone := Get(info, "phone");
        var contact := Contact(if Truthy(phone) then phone else Str(""), Field(body, "email"));
        Registered(userRole, if userRole == Supplier then Some(contact) else None)
  }

  /** What `login` does with a request: 400 when a credential is missing, else the
      credential check against the stored user, which is outside the model. */
  datatype LoginOutcome = MissingLoginFields | CheckCredentials(email: Json, password: Json)

  /** `login`, up to the credential check. */
  function Login(body: map<string, Json>): (r: LoginOutcome)
    ensures r.MissingLoginFields? <==> !Truthy(Field(body, "email")) || !Truthy(Field(body, "password"))
    ensures r.CheckCredentials? ==> r.email == Field(body, "email") && r.password == Field(body, "password")
  {
    if !Truthy(Field(body, "email")) || !Truthy(Field(body, "password")) then MissingLoginFields
    else CheckCredentials(Field(body, "email"), Field(body, "password"))
  }

  /** What `checkRole` does: hand over to the next handler, or answer 403. */
  datatype Gate = Proceed | Forbidden(message: string)

  /** `checkRole`, on the role carried by the verified token. */
  function CheckRole(role: Json): (g: Gate)
    ensures g.Proceed? <==> role == Str("supplier") || role == Str("admin")
    ensures g.Forbidden? ==> g.message == "Access denied. Only suppliers or admins can add products."
  {
    if role == Str("supplier") || role == Str("admin") then Proceed
    else Forbidden("Access denied. Only suppliers or admins can add products.")
  }

  /* -------------------------------------------------------------- properties */

  /** An account is created exactly when every check passes: credentials, a known or
      omitted role, the supplier fields for a supplier, an unused email, and a password
      that hashing accepts. */
  lemma RegisteredIffChecksPass(body: map<string, Json>, emailTaken: bool)
    ensures SignUp(body, emailTaken).Registered? <==>
              && CredentialsGiven(body) && ChosenRole(body).Some?
              && (ChosenRole(body) == Some(Supplier) ==> SupplierFieldsGiven(body))
              && !emailTaken && HashablePassword(body)
  {
  }

  /** A sign-up with credentials (the password a string), no role, every supplier field
      and a fresh email registers a supplier whose contact holds the given phone and the
      request email. */
  lemma OmittedRoleRegistersSupplier(body: map<string, Json>)
    requires Truthy(Field(body, "name")) && Truthy(Field(body, "email")) && Truthy(Field(body, "password"))
    requires HashablePassword(body)
    requires !Truthy(Field(body, "role"))
    requires SupplierFieldsGiven(body)
    ensures SignUp(body, false)
            == Registered(Supplier, Some(Contact(Get(Field(body, "contact_info"), "phone"), Field(body, "email"))))
  {
  }

  /** Admins and users skip the supplier checks: with credentials (the password a
      string) and a fresh email they register whatever supplier fields are present, and
      no contact is stored. */
  lemma NonSuppliersSkipSupplierFields(body: map<string, Json>, r: Role)
    requires Truthy(Field(body, "name")) && Truthy(Field(body, "email")) && Truthy(Field(body, "password"))
    requires HashablePassword(body)
    requires r != Supplier && Field(body, "role") == Str(RoleName(r))
    ensures SignUp(body, false) == Registered(r, None)
  {
  }

  /** The role an account registers with gets past the role gate exactly when it is
      not `user`. */
  lemma RegisteredRolesAtTheGate(body: map<string, Json>, emailTaken: bool)
    requires SignUp(body, emailTaken).Registered?
    ensures CheckRole(Str(RoleName(SignUp(body, emailTaken).role))).Proceed?
            <==> SignUp(body, emailTaken).role != User
  {
  }

  /** Every non-empty role outside the three names is refused, and each of the three is
      accepted once credentials are present. */
  lemma RoleAcceptedIffKnown(body: map<string, Json>, emailTaken: bool)
    requires Truthy(Field(body, "name")) && Truthy(Field(body, "email")) && Truthy(Field(body, "password"))
    requires Truthy(Field(body, "role"))
    ensures SignUp(body, emailTaken).InvalidRole? <==> RoleOf(Field(body, "role")).None?
    ensures SignUp(body, emailTaken).Registered? ==> Field(body, "role") == Str(RoleName(SignUp(body, emailTaken).role))
  {
  }
}
