/** The serializers of the api application: registration (field checks,
    the password-confirmation check, user creation) and the field set of
    the sweet representation. */
module Serializers {
  import opened Common
  import opened Models
  import Inventory

  /** Request data and validated data: a dict from field name to text. */
  type Data = map<string, string>

  /** Fields declared by RegisterSerializer.Meta, in declaration order. */
  const RegisterFields: seq<string> := ["username", "email", "password", "password2"]

  /** Fields declared by SweetSerializer.Meta, in declaration order. */
  const SweetFields: seq<string> := ["id", "name", "category", "price", "quantity"]

  const PasswordMinLength := 6
  /** max_length of the User model's username column, which the generated
      username field inherits. */
  const UsernameMaxLength := 150
  const PasswordsMustMatch := "Passwords must match."

  /** Why registration data is refused: the fields whose own checks failed,
      or the object-level error raised by validate(), keyed on a field. */
  datatype Rejection = FieldErrors(fields: set<string>) | KeyedError(field: string, message: string)

  /** A required character field: present and not blank. */
  predicate Filled(raw: Data, field: string) {
    field in raw && raw[field] != ""
  }

  /** The verdicts of checks whose code lies outside this file: the username
      character validator and uniqueness check that the User model gives the
      generated username field; the address check (format and length) of the
      generated email field; and Django's password validators. */
  datatype Verdicts = Verdicts(username: bool, email: bool, password: bool)

  /** The fields whose own declarations reject `raw`. username, password and
      password2 are required and may not be blank; the username is at most
      150 characters and must pass its validators; the password must have at
      least six characters and pass the password validators; email may be
      missing or blank, and otherwise must be a valid address. */
  function FieldErrorsOf(raw: Data, verdicts: Verdicts): (bad: set<string>)
    ensures bad <= set f | f in RegisterFields
    ensures "username" in bad <==>
      !Filled(raw, "username") || |raw["username"]| > UsernameMaxLength || !verdicts.username
    ensures "email" in bad <==> Filled(raw, "email") && !verdicts.email
    ensures "password" in bad <==>
      !Filled(raw, "password") || |raw["password"]| < PasswordMinLength || !verdicts.password
    ensures "password2" in bad <==> !Filled(raw, "password2")
  {
    (if Filled(raw, "username") && |raw["username"]| <= UsernameMaxLength && verdicts.username
     then {} else {"username"})
    + (if Filled(raw, "email") && !verdicts.email then {"email"} else {})
    + (if Filled(raw, "password") && |raw["password"]| >= PasswordMinLength && verdicts.password
       then {} else {"password"})
    + (if Filled(raw, "password2") then {} else {"password2"})
  }

  /** The validated data: the declared fields present in the request; any
      other key is dropped. */
  function DeclaredPart(raw: Data): (d: Data)
    ensures d.Keys == raw.Keys * (set f | f in RegisterFields)
    ensures forall f :: f in d ==> d[f] == raw[f]
  {
    map f | f in raw && f in RegisterFields :: raw[f]
  }

  /** RegisterSerializer.validate: the two passwords must be equal. */
  function Validate(data: Data): (r: Result<Data, Rejection>)
    requires "password" in data && "password2" in data
    ensures r.Ok? <==> data["password"] == data["password2"]
    ensures r.Ok? ==> r.value == data
    ensures r.Err? ==> r.error == KeyedError("password", PasswordsMustMatch)
  {
    if data["password"] != data["password2"] then Err(KeyedError("password", PasswordsMustMatch))
    else Ok(data)
  }

  /** is_valid(): the field checks, then validate() on the validated data.
      Field errors stop before validate() runs; accepted data is the declared
      part of the request. */
  function CheckRegistration(raw: Data, verdicts: Verdicts): (r: Result<Data, Rejection>)
    ensures r.Ok? <==>
      FieldErrorsOf(raw, verdicts) == {} && "password" in raw && "password2" in raw
      && raw["password"] == raw["password2"]
    ensures r.Ok? ==> r.value == DeclaredPart(raw)
    ensures FieldErrorsOf(raw, verdicts) != {} ==> r == Err(FieldErrors(FieldErrorsOf(raw, verdicts)))
  {
    var bad := FieldErrorsOf(raw, verdicts);
    if bad != {} then Err(FieldErrors(bad)) else Validate(DeclaredPart(raw))
  }

  /** The user create() builds: email defaults to '' when none was given. */
  function NewUser(data: Data): User
    requires "username" in data && "password" in data
  {
    User(data["username"], if "email" in data then data["email"] else "", data["password"])
  }

  /** Accepted registration data always yields a user whose password was
      typed twice identically, has at least six characters and passed the
      password validators, whose username is non-empty, short enough and
      accepted, and whose email, if given, is a valid address; the validated
      data holds declared fields only. */
  lemma AcceptedRegistration(raw: Data, verdicts: Verdicts)
    requires CheckRegistration(raw, verdicts).Ok?
    ensures var d := CheckRegistration(raw, verdicts).value;
      && d.Keys <= set f | f in RegisterFields
      && "username" in d && "password" in d && "password2" in d
      && NewUser(d) == User(raw["username"], if "email" in raw then raw["email"] else "", raw["password"])
      && raw["password"] == raw["password2"]
      && |NewUser(d).password| >= PasswordMinLength
      && 0 < |NewUser(d).username| <= UsernameMaxLength
      && verdicts.username && verdicts.password
      && ("email" in raw && raw["email"] != "" ==> verdicts.email)
  {
    var bad := FieldErrorsOf(raw, verdicts);
    assert "username" !in bad && "password" !in bad && "password2" !in bad;
  }

  /** Mismatched passwords are refused with the error keyed on "password"
      once every field passes its own checks; a short password and an invalid
      email address are refused by their field declarations before
      validate() runs. */
  lemma RefusedRegistration(raw: Data, verdicts: Verdicts)
    ensures FieldErrorsOf(raw, verdicts) == {} && raw["password"] != raw["password2"] ==>
      CheckRegistration(raw, verdicts) == Err(KeyedError("password", PasswordsMustMatch))
    ensures "password" in raw && |raw["password"]| < PasswordMinLength ==>
      CheckRegistration(raw, verdicts).Err? &&
      CheckRegistration(raw, verdicts).error.FieldErrors? &&
      "password" in CheckRegistration(raw, verdicts).error.fields
    ensures Filled(raw, "email") && !verdicts.email ==>
      CheckRegistration(raw, verdicts).Err? &&
      CheckRegistration(raw, verdicts).error.FieldErrors? &&
      "email" in CheckRegistration(raw, verdicts).error.fields
  {
    var bad := FieldErrorsOf(raw, verdicts);
    if bad == {} {
      assert "password" !in bad && "password2" !in bad;
      var d := DeclaredPart(raw);
      assert "password" in d && "password2" in d;
    }
  }

  /** A serializer after is_valid() succeeded, holding its validated data. */
  class RegisterSerializer {
    var validatedData: Data

    constructor (validated: Data)
      ensures validatedData == validated
    {
      validatedData := validated;
    }

    /** create(): pop password2 from the validated data, then build the user
        (the password is then hashed and the row saved, which this model
        leaves out). */
    method Create() returns (user: User)
      requires "username" in validatedData && "password" in validatedData && "password2" in validatedData
      modifies this
      ensures validatedData == old(validatedData) - {"password2"}
      ensures user == NewUser(old(validatedData))
    {
      validatedData := validatedData - {"password2"};
      var email := if "email" in validatedData then validatedData["email"] else "";
      user := User(validatedData["username"], email, validatedData["password"]);
    }
  }

  // ---------------------------------------------------------------------
  // SweetSerializer
  // ---------------------------------------------------------------------

  /** A value in a serialized sweet; the price is a decimal amount in cents. */
  datatype Value = Int(i: int) | Text(s: string) | Money(cents: int)

  /** The representation of a sweet: exactly the declared fields. */
  function SweetRepresentation(s: Sweet): (m: map<string, Value>)
    ensures m.Keys == set f | f in SweetFields
  {
    map["id" := Int(s.id), "name" := Text(s.name), "category" := Text(s.category),
        "price" := Money(s.price), "quantity" := Int(s.quantity)]
  }

  /** Reading a sweet back from its representation. */
  function SweetFromRepresentation(m: map<string, Value>): Option<Sweet>
  {
    if "id" in m && m["id"].Int? && "name" in m && m["name"].Text? && "category" in m && m["category"].Text?
       && "price" in m && m["price"].Money? && "quantity" in m && m["quantity"].Int?
    then Some(Sweet(m["id"].i, m["name"].s, m["category"].s, m["price"].cents, m["quantity"].i))
    else None
  }

  /** The representation loses nothing. */
  lemma SweetRepresentationRoundTrip(s: Sweet)
    ensures SweetFromRepresentation(SweetRepresentation(s)) == Some(s)
  {
  }

  /** On success, purchase and restock answer with the serialized updated
      row: its id, name, category and price as stored, and the new quantity. */
  lemma ActionsAnswerSerializedRow(rows: map<int, Sweet>, caller: Inventory.Caller, pk: int, amount: Inventory.Amount)
    ensures var p := Inventory.PurchaseStep(rows, caller, pk);
      p.response.status == Inventory.OK ==>
        && p.response.body.Record?
        && SweetRepresentation(p.response.body.sweet) ==
             SweetRepresentation(rows[pk])["quantity" := Int(rows[pk].quantity - 1)]
    ensures var r := Inventory.RestockStep(rows, caller, pk, amount);
      r.response.status == Inventory.OK ==>
        && r.response.body.Record?
        && SweetRepresentation(r.response.body.sweet) ==
             SweetRepresentation(rows[pk])["quantity" := Int(rows[pk].quantity + amount.n)]
  {
  }
}
