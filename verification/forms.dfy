/** The input checks of the registration screen and of the add/edit space
    dialog: ordered chains that trim the fields and stop at the first failed
    check with its message. */
module Forms {
  import opened Model

  /** The characters a trim removes: the Java whitespace controls and every
      Unicode space, line and paragraph separator. */
  predicate IsWhitespace(c: char)
  {
    var n := c as int;
    (9 <= n <= 13) || (28 <= n <= 32) || n == 0xA0 || n == 0x1680
    || (0x2000 <= n <= 0x200A) || n == 0x2028 || n == 0x2029 || n == 0x202F || n == 0x205F || n == 0x3000
  }

  /** The number of whitespace characters `s` starts with. */
  function LeadingCount(s: string): (n: nat)
    ensures n <= |s|
    ensures forall i :: 0 <= i < n ==> IsWhitespace(s[i])
    ensures n < |s| ==> !IsWhitespace(s[n])
  {
    if s != [] && IsWhitespace(s[0]) then 1 + LeadingCount(s[1..]) else 0
  }

  /** `s` without its trailing whitespace. */
  function DropTrailing(s: string): (t: string)
    ensures |t| <= |s| && t == s[..|t|]
    ensures forall i :: |t| <= i < |s| ==> IsWhitespace(s[i])
    ensures t != [] ==> !IsWhitespace(t[|t| - 1])
  {
    if s != [] && IsWhitespace(s[|s| - 1]) then DropTrailing(s[..|s| - 1]) else s
  }

  /** `s` without leading and trailing whitespace: the slice between the first
      and the last character that is not whitespace. */
  function Trim(s: string): (t: string)
    ensures LeadingCount(s) + |t| <= |s| && t == s[LeadingCount(s)..LeadingCount(s) + |t|]
    ensures t != [] ==> !IsWhitespace(t[0]) && !IsWhitespace(t[|t| - 1])
    ensures forall i :: LeadingCount(s) + |t| <= i < |s| ==> IsWhitespace(s[i])
    ensures t == [] <==> forall i :: 0 <= i < |s| ==> IsWhitespace(s[i])
  {
    var start := LeadingCount(s);
    var t := DropTrailing(s[start..]);
    assert forall i :: start + |t| <= i < |s| ==> s[i] == s[start..][i - start];
    t
  }

  /** Trimming twice is trimming once. */
  lemma TrimIdempotent(s: string)
    ensures Trim(Trim(s)) == Trim(s)
  {
    var t := Trim(s);
    if t != [] {
      assert LeadingCount(t) == 0;
      assert DropTrailing(t) == t;
    }
  }

  const FillAllFieldsMessage: string := "Preencha todos os campos."

  // ---------------------------------------------------------------------------
  // Registration.

  const PasswordMismatchMessage: string := "As senhas não coincidem."
  const ShortPasswordMessage: string := "A senha deve ter no mínimo 6 caracteres."
  const SelectUserTypeMessage: string := "Selecione o tipo de usuário."

  const MinPasswordLength: nat := 6

  /** The stored names of the two user types. */
  const UserTypeDriver: string := "Motorista"
  const UserTypeAdmin: string := "Administrador"

  /** The state of the user-type radio group. */
  datatype UserTypeChoice = NoSelection | AdminSelected | OtherSelected

  /** A registration request handed to the identity service. */
  datatype Registration = Registration(email: string, password: string, userType: string)

  /** A checked form: refused with a message, or accepted with what it asks for. */
  datatype Verdict<+T> = Rejected(message: string) | Accepted(value: T)

  function ValidateRegistration(emailText: string, passwordText: string, confirmText: string,
                                choice: UserTypeChoice): (v: Verdict<Registration>)
    ensures var email, password, confirm := Trim(emailText), Trim(passwordText), Trim(confirmText);
            && (email == [] || password == [] || confirm == [] ==> v == Rejected(FillAllFieldsMessage))
            && ((email != [] && password != [] && confirm != [] && password != confirm)
                  ==> v == Rejected(PasswordMismatchMessage))
            && ((email != [] && password != [] && password == confirm && |password| < MinPasswordLength)
                  ==> v == Rejected(ShortPasswordMessage))
            && ((email != [] && password != [] && password == confirm && |password| >= MinPasswordLength
                 && choice == NoSelection) ==> v == Rejected(SelectUserTypeMessage))
            && (v.Accepted? <==> email != [] && password != [] && password == confirm
                                 && |password| >= MinPasswordLength && choice != NoSelection)
            && (v.Accepted? ==> v.value.email == email && v.value.password == password)
    ensures v.Rejected? && choice != NoSelection ==> v.message != SelectUserTypeMessage
    ensures v.Accepted? ==> v.value.userType == (if choice == AdminSelected then UserTypeAdmin else UserTypeDriver)
  {
    var email := Trim(emailText);
    var password := Trim(passwordText);
    var confirmPassword := Trim(confirmText);
    if email == [] || password == [] || confirmPassword == [] then Rejected(FillAllFieldsMessage)
    else if password != confirmPassword then Rejected(PasswordMismatchMessage)
    else if |password| < MinPasswordLength then Rejected(ShortPasswordMessage)
    else if choice == NoSelection then Rejected(SelectUserTypeMessage)
    else
      var userType := if choice == AdminSelected then UserTypeAdmin else UserTypeDriver;
      Accepted(Registration(email, password, userType))
  }

  // ---------------------------------------------------------------------------
  // The add/edit space dialog.

  const InvalidRateMessage: string := "Tarifa inválida."

  /** What an accepted dialog asks the admin view-model to do. */
  datatype SpaceAction = AddAction(spaceNumber: string, hourlyRate: real) | EditAction(space: ParkingSpace)

  /** Checks the dialog's two fields. `parse` is the number parser applied to
      the trimmed rate text; `editing` is the space being edited, if any. */
  function ValidateSpaceForm(editing: Option<ParkingSpace>, numberText: string, rateText: string,
                             parse: string -> Option<real>): (v: Verdict<SpaceAction>)
    ensures var number, rate := Trim(numberText), Trim(rateText);
            && (number == [] || rate == [] ==> v == Rejected(FillAllFieldsMessage))
            && ((number != [] && rate != [] && (parse(rate).None? || parse(rate).value <= 0.0))
                  ==> v == Rejected(InvalidRateMessage))
            && (v.Accepted? <==> number != [] && rate != [] && parse(rate).Some? && parse(rate).value > 0.0)
            && (v.Accepted? && editing.None? ==> v.value == AddAction(number, parse(rate).value))
    ensures v.Accepted? && editing.Some? ==>
              && v.value.EditAction?
              && v.value.space.hourlyRate == parse(Trim(rateText)).value
              && v.value.space.(hourlyRate := editing.value.hourlyRate) == editing.value
  {
    var number := Trim(numberText);
    var rateStr := Trim(rateText);
    if number == [] || rateStr == [] then Rejected(FillAllFieldsMessage)
    else
      var rate := parse(rateStr);
      if rate.None? || rate.value <= 0.0 then Rejected(InvalidRateMessage)
      else if editing.None? then Accepted(AddAction(number, rate.value))
      else Accepted(EditAction(editing.value.(hourlyRate := rate.value)))
  }
}
