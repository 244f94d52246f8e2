/** The registration form of src/components/LoginAndRegister/Register.tsx:
    five required fields checked in a fixed order before `onRegister` is
    called with all of them. */
module Register {
  import opened Wrappers
  import opened Models

  datatype Field = Email | Username | Password | Name | Surname

  /** The order in which `handleSubmit` checks the fields. */
  const FieldOrder: seq<Field> := [Email, Username, Password, Name, Surname]

  function FieldValue(m: RegisterModel, f: Field): string {
    match f
    case Email => m.email
    case Username => m.username
    case Password => m.password
    case Name => m.name
    case Surname => m.surname
  }

  /** Which field an error message is about, if any. */
  function FieldOfMessage(message: string): Option<Field> {
    if message == "Email обязателен." then Some(Email)
    else if message == "Имя пользователя обязательно." then Some(Username)
    else if message == "Пароль обязателен." then Some(Password)
    else if message == "Имя обязательно." then Some(Name)
    else if message == "Фамилия обязательна." then Some(Surname)
    else None
  }

  /** The error shown when a field is left empty: it names that field and no
      other. */
  function RequiredMessage(f: Field): (message: string)
    ensures FieldOfMessage(message) == Some(f)
  {
    match f
    case Email => "Email обязателен."
    case Username => "Имя пользователя обязательно."
    case Password => "Пароль обязателен."
    case Name => "Имя обязательно."
    case Surname => "Фамилия обязательна."
  }

  lemma AllFilledIff(m: RegisterModel)
    ensures (forall f :: FieldValue(m, f) != "") <==>
      m.email != "" && m.username != "" && m.password != "" && m.name != "" && m.surname != ""
  {
    assert FieldValue(m, Email) == m.email && FieldValue(m, Username) == m.username;
    assert FieldValue(m, Password) == m.password && FieldValue(m, Name) == m.name;
    assert FieldValue(m, Surname) == m.surname;
  }

  /** The validation chain of `handleSubmit`: each empty field returns its
      message at once; when none is empty the whole model is submitted. */
  function Validate(m: RegisterModel): (r: Result<RegisterModel, string>)
    ensures r.Success? <==> forall f :: FieldValue(m, f) != ""
    ensures r.Success? ==> r.value == m
    ensures r.Failure? ==> exists f :: FieldValue(m, f) == "" && r.error == RequiredMessage(f)
  {
    AllFilledIff(m);
    if m.email == "" then Failure(RequiredMessage(Email))
    else if m.username == "" then Failure(RequiredMessage(Username))
    else if m.password == "" then Failure(RequiredMessage(Password))
    else if m.name == "" then Failure(RequiredMessage(Name))
    else if m.surname == "" then Failure(RequiredMessage(Surname))
    else Success(m)
  }

  /** The first of `fields` whose value is empty. */
  function FirstEmpty(m: RegisterModel, fields: seq<Field>): (r: Option<nat>)
    ensures r.Some? ==> r.value < |fields| && FieldValue(m, fields[r.value]) == ""
    ensures forall k | 0 <= k < |fields| && (r.None? || k < r.value) :: FieldValue(m, fields[k]) != ""
  {
    if fields == [] then None
    else if FieldValue(m, fields[0]) == "" then Some(0)
    else match FirstEmpty(m, fields[1..])
      case None => None
      case Some(i) => Some(i + 1)
  }

  /** The chain reports the first empty field in the order email, user name,
      password, name, surname, and submits only when there is none. */
  lemma ValidateReportsFirstEmpty(m: RegisterModel)
    ensures Validate(m) == match FirstEmpty(m, FieldOrder)
      case None => Success(m)
      case Some(i) => Failure(RequiredMessage(FieldOrder[i]))
  {
    var order := FieldOrder;
    assert order[1..] == [Username, Password, Name, Surname];
    assert order[1..][1..] == [Password, Name, Surname];
    assert order[1..][1..][1..] == [Name, Surname];
    assert order[1..][1..][1..][1..] == [Surname];
    assert order[1..][1..][1..][1..][1..] == [];
    var tail4 := FirstEmpty(m, [Surname]);
    var tail3 := FirstEmpty(m, [Name, Surname]);
    var tail2 := FirstEmpty(m, [Password, Name, Surname]);
    var tail1 := FirstEmpty(m, [Username, Password, Name, Surname]);
    assert tail4 == if m.surname == "" then Some(0) else None;
    assert tail3 == if m.name == "" then Some(0) else if m.surname == "" then Some(1) else None;
    assert tail2 == if m.password == "" then Some(0) else if m.name == "" then Some(1)
      else if m.surname == "" then Some(2) else None;
    assert tail1 == if m.username == "" then Some(0) else if m.password == "" then Some(1)
      else if m.name == "" then Some(2) else if m.surname == "" then Some(3) else None;
  }

  /** The messages tell the fields apart. */
  lemma RequiredMessageInjective(f: Field, g: Field)
    ensures RequiredMessage(f) == RequiredMessage(g) <==> f == g
  {
    if f != g {
      assert RequiredMessage(f)[..4] != RequiredMessage(g)[..4] || |RequiredMessage(f)| != |RequiredMessage(g)|;
    }
  }

  const DefaultRegisterError: string := "Ошибка регистрации. Пожалуйста, попробуйте снова."

  /** `err.response?.data?.error || default`: the server's message when it
      sent a non-empty one, otherwise the fixed message. */
  function RejectionMessage(serverError: Option<string>): (msg: string)
    ensures msg != ""
    ensures serverError.Some? && serverError.value != "" ==> msg == serverError.value
    ensures serverError.None? || serverError.value == "" ==> msg == DefaultRegisterError
  {
    match serverError
    case Some(e) => if e != "" then e else DefaultRegisterError
    case None => DefaultRegisterError
  }

  /** How the awaited `onRegister` call settles. */
  datatype RegisterOutcome = Registered | Rejected(serverError: Option<string>)

  class RegisterForm {
    var email: string
    var username: string
    var password: string
    var name: string
    var surname: string
    var error: Option<string>
    /** Every model `onRegister` was called with, in order. */
    var submitted: seq<RegisterModel>

    function Model(): RegisterModel
      reads this
    {
      RegisterModel(email, username, password, name, surname)
    }

    constructor ()
      ensures Model() == RegisterModel("", "", "", "", "")
      ensures error == None && submitted == []
    {
      email, username, password, name, surname := "", "", "", "", "";
      error := None;
      submitted := [];
    }

    /** An input's `onChange`. */
    method SetField(f: Field, value: string)
      modifies this`email, this`username, this`password, this`name, this`surname
      ensures FieldValue(Model(), f) == value
      ensures forall g | g != f :: FieldValue(Model(), g) == FieldValue(old(Model()), g)
    {
      match f
      case Email => email := value;
      case Username => username := value;
      case Password => password := value;
      case Name => name := value;
      case Surname => surname := value;
    }

    /** `handleSubmit`: clears the error, stops at the first empty field, and
        otherwise calls `onRegister` once with all five values; a rejection
        shows the server's message or the default one. */
    method HandleSubmit(outcome: RegisterOutcome)
      modifies this`error, this`submitted
      ensures Validate(Model()).Failure? ==>
        error == Some(Validate(Model()).error) && submitted == old(submitted)
      ensures Validate(Model()).Success? ==> submitted == old(submitted) + [Model()]
      ensures Validate(Model()).Success? && outcome.Registered? ==> error == None
      ensures Validate(Model()).Success? && outcome.Rejected? ==>
        error == Some(RejectionMessage(outcome.serverError))
    {
      error := None;
      match Validate(Model())
      case Failure(message) =>
        error := Some(message);
      case Success(model) =>
        submitted := submitted + [model];
        if outcome.Rejected? {
          error := Some(RejectionMessage(outcome.serverError));
        }
    }
  }
}
