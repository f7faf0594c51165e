/** The older registration serializer of the sweetshop package. Nothing
    imports it (the views use the api application's serializers); it is
    modelled to show how it differs: no email field and no minimum password
    length. */
module LegacySerializers {
  import opened Common
  import opened Models
  import Serializers

  type Data = Serializers.Data
  type Rejection = Serializers.Rejection

  /** Fields declared by the legacy RegisterSerializer.Meta. */
  const RegisterFields: seq<string> := ["username", "password", "password2"]

  /** max_length of the User model's password column, which the generated
      password field inherits. */
  const PasswordMaxLength := 128

  /** The fields whose declarations reject `raw`: all three are required
      character fields that may not be blank; username and password also
      carry the User model's length limits, and the username must pass the
      model's validators and uniqueness check, whose verdict is
      `usernameAccepted`. */
  function FieldErrorsOf(raw: Data, usernameAccepted: bool): (bad: set<string>)
    ensures bad <= set f | f in RegisterFields
    ensures "username" in bad <==>
      !Serializers.Filled(raw, "username") || |raw["username"]| > Serializers.UsernameMaxLength || !usernameAccepted
    ensures "password" in bad <==> !Serializers.Filled(raw, "password") || |raw["password"]| > PasswordMaxLength
    ensures "password2" in bad <==> !Serializers.Filled(raw, "password2")
  {
    (if Serializers.Filled(raw, "username") && |raw["username"]| <= Serializers.UsernameMaxLength && usernameAccepted
     then {} else {"username"})
    + (if Serializers.Filled(raw, "password") && |raw["password"]| <= PasswordMaxLength then {} else {"password"})
    + (if Serializers.Filled(raw, "password2") then {} else {"password2"})
  }

  /** The legacy validate: the two passwords must be equal. */
  function Validate(data: Data): (r: Result<Data, Rejection>)
    requires "password" in data && "password2" in data
    ensures r.Ok? <==> data["password"] == data["password2"]
    ensures r.Ok? ==> r.value == data
    ensures r.Err? ==> r.error == Serializers.KeyedError("password", Serializers.PasswordsMustMatch)
  {
    if data["password"] == data["password2"] then Ok(data)
    else Err(Serializers.KeyedError("password", Serializers.PasswordsMustMatch))
  }

  /** is_valid() of the legacy serializer; unknown keys, email included, are
      dropped. */
  function CheckRegistration(raw: Data, usernameAccepted: bool): (r: Result<Data, Rejection>)
    ensures r.Ok? <==>
      FieldErrorsOf(raw, usernameAccepted) == {} && "password" in raw && "password2" in raw
      && raw["password"] == raw["password2"]
    ensures r.Ok? ==> r.value.Keys == raw.Keys * (set f | f in RegisterFields)
    ensures r.Ok? ==> forall f :: f in r.value ==> r.value[f] == raw[f]
    ensures FieldErrorsOf(raw, usernameAccepted) != {} ==>
      r == Err(Serializers.FieldErrors(FieldErrorsOf(raw, usernameAccepted)))
  {
    var bad := FieldErrorsOf(raw, usernameAccepted);
    if bad != {} then Err(Serializers.FieldErrors(bad))
    else Validate(map f | f in raw && f in RegisterFields :: raw[f])
  }

  /** The user create_user() makes from username and password only; with
      no email given it stores ''. */
  function NewUser(data: Data): User
    requires "username" in data && "password" in data
  {
    User(data["username"], "", data["password"])
  }

  /** Both serializers decide the password-confirmation check alike. */
  lemma ValidateAgreesWithCurrent(data: Data)
    requires "password" in data && "password2" in data
    ensures Validate(data) == Serializers.Validate(data)
  {
  }

  /** Accepted legacy data yields a user with the twice-typed password and
      no email, whatever email the request carried; unlike the current
      serializer, a one-character password is accepted. */
  lemma AcceptedLegacyRegistration(raw: Data, usernameAccepted: bool)
    requires CheckRegistration(raw, usernameAccepted).Ok?
    ensures var d := CheckRegistration(raw, usernameAccepted).value;
      && d.Keys <= set f | f in RegisterFields
      && "username" in d && "password" in d && "password2" in d
      && NewUser(d) == User(raw["username"], "", raw["password"])
      && raw["password"] == raw["password2"]
      && 0 < |raw["password"]| <= PasswordMaxLength
  {
    var bad := FieldErrorsOf(raw, usernameAccepted);
    assert "username" !in bad && "password" !in bad && "password2" !in bad;
  }

  /** The two serializers disagree on short passwords: data with an accepted
      username and a matching password of fewer than six characters passes
      the legacy checks but not the current ones; an email key is dropped by the
      legacy serializer and kept by the current one. */
  lemma LegacyIsLaxer(raw: Data, verdicts: Serializers.Verdicts)
    requires Serializers.Filled(raw, "username") && |raw["username"]| <= Serializers.UsernameMaxLength
    requires verdicts.username
    requires Serializers.Filled(raw, "password") && |raw["password"]| <= PasswordMaxLength
    requires "password2" in raw && raw["password2"] == raw["password"]
    ensures CheckRegistration(raw, verdicts.username).Ok?
    ensures "email" !in CheckRegistration(raw, verdicts.username).value
    ensures |raw["password"]| < Serializers.PasswordMinLength ==> Serializers.CheckRegistration(raw, verdicts).Err?
    ensures "email" in raw && Serializers.CheckRegistration(raw, verdicts).Ok? ==>
      "email" in Serializers.CheckRegistration(raw, verdicts).value
  {
    var bad := Serializers.FieldErrorsOf(raw, verdicts);
    if |raw["password"]| < Serializers.PasswordMinLength {
      assert "password" in bad;
    }
  }

  /** A legacy serializer after is_valid() succeeded. */
  class RegisterSerializer {
    var validatedData: Data

    constructor (validated: Data)
      ensures validatedData == validated
    {
      validatedData := validated;
    }

    /** create(): pop password2, then create the user from username and
        password. */
    method Create() returns (user: User)
      requires "username" in validatedData && "password" in validatedData && "password2" in validatedData
      modifies this
      ensures validatedData == old(validatedData) - {"password2"}
      ensures user == NewUser(old(validatedData))
    {
      validatedData := validatedData - {"password2"};
      user := User(validatedData["username"], "", validatedData["password"]);
    }
  }
}
