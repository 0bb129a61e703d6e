/**
 * Validation of user input and rendering of validation errors
 * (utils/auth_helper.go).
 */
module AuthHelper {
  import opened Models

  /** One failed check: the field's name and what is wrong with it. */
  datatype UserValidationError = UserValidationError(field: string, message: string)

  /**
   * The value handed to ValidateUserInput. The source switches on its dynamic
   * type; the two known record types and everything else become three variants.
   */
  datatype UserInput = Register(user: RegisterUserModel) | Login(login: LoginUserModel) | OtherType

  /** The single error reported for a value of any other type. */
  const InvalidUserType := UserValidationError("User", "Invalid user type")

  /** One required-field check: the field's name, its value, and the message if it is empty. */
  datatype FieldCheck = FieldCheck(field: string, value: string, message: string)

  /** The error a check contributes: one when its value is empty, none otherwise. */
  function ErrorIfEmpty(c: FieldCheck): seq<UserValidationError>
  {
    if c.value == "" then [UserValidationError(c.field, c.message)] else []
  }

  /** The checks that apply to a known input, in the order they are made. */
  function RequiredFields(input: UserInput, isRegistration: bool): seq<FieldCheck>
    requires !input.OtherType?
  {
    match input
    case Register(u) =>
      [FieldCheck("full_name", u.fullName, "Full name is mandatory"),
       FieldCheck("email", u.email, "Email is mandatory")]
      + (if isRegistration then
           [FieldCheck("password", u.password, "Password is mandatory"),
            FieldCheck("profile_pic", u.profilePic, "Profile picture is mandatory")]
         else [])
    case Login(l) =>
      [FieldCheck("email", l.email, "Email is mandatory"),
       FieldCheck("password", l.password, "Password is mandatory")]
  }

  /** The errors of the checks whose value is empty, in check order. */
  function MissingFields(checks: seq<FieldCheck>): (errs: seq<UserValidationError>)
    ensures |errs| <= |checks|
    ensures (errs == []) <==> (forall i :: 0 <= i < |checks| ==> checks[i].value != "")
  {
    if checks == [] then []
    else ErrorIfEmpty(checks[0]) + MissingFields(checks[1..])
  }

  /** The errors ValidateUserInput is meant to return: a declarative reference. */
  function ExpectedErrors(input: UserInput, isRegistration: bool): seq<UserValidationError>
  {
    if input.OtherType? then [InvalidUserType] else MissingFields(RequiredFields(input, isRegistration))
  }

  /**
   * ValidateUserInput: appends one error per empty required field, in the
   * order full_name, email[, password, profile_pic] for a registration and
   * email, password for a login; any other input gives one fixed error.
   */
  method ValidateUserInput(input: UserInput, isRegistration: bool) returns (errors: seq<UserValidationError>)
    ensures errors == ExpectedErrors(input, isRegistration)
    ensures input.OtherType? ==> errors == [InvalidUserType]
  {
    errors := [];
    match input {
      case Register(u) =>
        if u.fullName == "" {
          errors := errors + [UserValidationError("full_name", "Full name is mandatory")];
        }
        if u.email == "" {
          errors := errors + [UserValidationError("email", "Email is mandatory")];
        }
        if isRegistration {
          if u.password == "" {
            errors := errors + [UserValidationError("password", "Password is mandatory")];
          }
          if u.profilePic == "" {
            errors := errors + [UserValidationError("profile_pic", "Profile picture is mandatory")];
          }
        }
        RegisterChecks(u, isRegistration);
      case Login(l) =>
        if l.email == "" {
          errors := errors + [UserValidationError("email", "Email is mandatory")];
        }
        if l.password == "" {
          errors := errors + [UserValidationError("password", "Password is mandatory")];
        }
        MissingFieldsOfTwo(RequiredFields(input, isRegistration)[0], RequiredFields(input, isRegistration)[1]);
      case OtherType =>
        errors := [InvalidUserType];
    }
  }

  /** Checking two lists of fields one after the other reports the errors of both, in order. */
  lemma {:induction false} MissingFieldsAppend(a: seq<FieldCheck>, b: seq<FieldCheck>)
    ensures MissingFields(a + b) == MissingFields(a) + MissingFields(b)
  {
    if a == [] {
      assert a + b == b;
    } else {
      assert (a + b)[0] == a[0];
      assert (a + b)[1..] == a[1..] + b;
      MissingFieldsAppend(a[1..], b);
    }
  }

  /** Two checks in a row report the first one's error, then the second one's. */
  lemma MissingFieldsOfTwo(c: FieldCheck, d: FieldCheck)
    ensures MissingFields([c, d]) == ErrorIfEmpty(c) + ErrorIfEmpty(d)
  {
    assert [c, d][1..] == [d];
    assert [d][1..] == [];
  }

  /** The register checks report full_name, email, then (during registration) password and profile_pic. */
  lemma RegisterChecks(u: RegisterUserModel, isRegistration: bool)
    ensures ExpectedErrors(Register(u), isRegistration)
         == ErrorIfEmpty(FieldCheck("full_name", u.fullName, "Full name is mandatory"))
          + ErrorIfEmpty(FieldCheck("email", u.email, "Email is mandatory"))
          + (if isRegistration then
               ErrorIfEmpty(FieldCheck("password", u.password, "Password is mandatory"))
             + ErrorIfEmpty(FieldCheck("profile_pic", u.profilePic, "Profile picture is mandatory"))
             else [])
  {
    var fn := FieldCheck("full_name", u.fullName, "Full name is mandatory");
    var em := FieldCheck("email", u.email, "Email is mandatory");
    var pw := FieldCheck("password", u.password, "Password is mandatory");
    var pp := FieldCheck("profile_pic", u.profilePic, "Profile picture is mandatory");
    MissingFieldsOfTwo(fn, em);
    if isRegistration {
      MissingFieldsOfTwo(pw, pp);
      MissingFieldsAppend([fn, em], [pw, pp]);
    } else {
      assert RequiredFields(Register(u), isRegistration) == [fn, em];
    }
  }

  /**
   * Login input: no error exactly when email and password are both given;
   * when both are missing the email error comes first; the registration flag
   * plays no part; at most two errors.
   */
  lemma LoginValidation(l: LoginUserModel, isRegistration: bool)
    ensures ExpectedErrors(Login(l), isRegistration) == ExpectedErrors(Login(l), !isRegistration)
    ensures ExpectedErrors(Login(l), isRegistration) == [] <==> l.email != "" && l.password != ""
    ensures l.email == "" && l.password == "" ==>
      ExpectedErrors(Login(l), isRegistration)
      == [UserValidationError("email", "Email is mandatory"), UserValidationError("password", "Password is mandatory")]
    ensures |ExpectedErrors(Login(l), isRegistration)| <= 2
  {
    MissingFieldsOfTwo(FieldCheck("email", l.email, "Email is mandatory"),
                       FieldCheck("password", l.password, "Password is mandatory"));
  }

  /**
   * Register input outside registration: only full_name and email are
   * checked; password and profile_pic may be empty without an error.
   */
  lemma RegisterWithoutRegistration(u: RegisterUserModel)
    ensures ExpectedErrors(Register(u), false) == ExpectedErrors(Register(u.(password := "", profilePic := "")), false)
    ensures forall e :: e in ExpectedErrors(Register(u), false) ==> e.field == "full_name" || e.field == "email"
    ensures ExpectedErrors(Register(u), false) == [] <==> u.fullName != "" && u.email != ""
  {
    RegisterChecks(u, false);
    RegisterChecks(u.(password := "", profilePic := ""), false);
  }

  /**
   * Register input during registration: one error per empty field, in the
   * order full_name, email, password, profile_pic, so at most four errors;
   * a field is reported exactly when it is empty, and the first error names
   * the first empty field.
   */
  lemma RegisterDuringRegistration(u: RegisterUserModel)
    ensures |ExpectedErrors(Register(u), true)| <= 4
    ensures ExpectedErrors(Register(u), true) == [] <==>
      u.fullName != "" && u.email != "" && u.password != "" && u.profilePic != ""
    ensures (UserValidationError("full_name", "Full name is mandatory") in ExpectedErrors(Register(u), true)) <==> u.fullName == ""
    ensures (UserValidationError("email", "Email is mandatory") in ExpectedErrors(Register(u), true)) <==> u.email == ""
    ensures (UserValidationError("password", "Password is mandatory") in ExpectedErrors(Register(u), true)) <==> u.password == ""
    ensures (UserValidationError("profile_pic", "Profile picture is mandatory") in ExpectedErrors(Register(u), true)) <==> u.profilePic == ""
    ensures u.fullName == "" ==> ExpectedErrors(Register(u), true)[0].field == "full_name"
    ensures u.fullName != "" && u.email == "" ==> ExpectedErrors(Register(u), true)[0].field == "email"
    ensures u.fullName != "" && u.email != "" && u.password == "" ==> ExpectedErrors(Register(u), true)[0].field == "password"
    ensures u.fullName != "" && u.email != "" && u.password != "" && u.profilePic == "" ==>
      ExpectedErrors(Register(u), true) == [UserValidationError("profile_pic", "Profile picture is mandatory")]
  {
    RegisterChecks(u, true);
  }

  /** One error rendered as "field: message". */
  function FormatError(e: UserValidationError): string
  {
    e.field + ": " + e.message
  }

  /** Every error rendered, in input order. */
  function Formatted(errors: seq<UserValidationError>): seq<string>
  {
    seq(|errors|, k requires 0 <= k < |errors| => FormatError(errors[k]))
  }

  /** strings.Join: the items with the separator between each neighbouring pair. */
  function Join(items: seq<string>, sep: string): string
  {
    if |items| == 0 then ""
    else if |items| == 1 then items[0]
    else items[0] + sep + Join(items[1..], sep)
  }

  /** The sum of the lengths of the items. */
  function TotalLength(items: seq<string>): nat
  {
    if items == [] then 0 else |items[0]| + TotalLength(items[1..])
  }

  /** Where the k-th item starts in the joined string. */
  function Offset(items: seq<string>, sep: string, k: nat): nat
    requires k <= |items|
  {
    if k == 0 then 0 else |items[0]| + |sep| + Offset(items[1..], sep, k - 1)
  }

  /** n items joined give the items' lengths plus n - 1 separators. */
  lemma {:induction false} JoinLength(items: seq<string>, sep: string)
    requires items != []
    ensures |Join(items, sep)| == TotalLength(items) + (|items| - 1) * |sep|
  {
    if |items| > 1 {
      JoinLength(items[1..], sep);
    } else {
      assert items[1..] == [];
    }
  }

  /**
   * The joined string holds the k-th item at Offset(k), and a separator right
   * after every item but the last: the items appear in input order.
   */
  lemma {:induction false} JoinLayout(items: seq<string>, sep: string, k: nat)
    requires k < |items|
    ensures Offset(items, sep, k) + |items[k]| <= |Join(items, sep)|
    ensures Join(items, sep)[Offset(items, sep, k) .. Offset(items, sep, k) + |items[k]|] == items[k]
    ensures k + 1 < |items| ==>
      Offset(items, sep, k + 1) == Offset(items, sep, k) + |items[k]| + |sep| &&
      Offset(items, sep, k + 1) <= |Join(items, sep)| &&
      Join(items, sep)[Offset(items, sep, k) + |items[k]| .. Offset(items, sep, k + 1)] == sep
  {
    var j := Join(items, sep);
    if |items| == 1 {
      assert j == items[0];
    } else {
      var rest := items[1..];
      var head := items[0] + sep;
      assert j == head + Join(rest, sep);
      if k == 0 {
        assert Offset(items, sep, 1) == |head| + Offset(rest, sep, 0);
        assert j[..|items[0]|] == items[0];
        assert j[|items[0]|..|head|] == sep;
      } else {
        JoinLayout(rest, sep, k - 1);
        var o := Offset(rest, sep, k - 1);
        assert Offset(items, sep, k) == |head| + o;
        assert rest[k - 1] == items[k];
        SliceAfter(head, Join(rest, sep), o, o + |items[k]|);
        if k + 1 < |items| {
          var o' := Offset(rest, sep, k);
          assert Offset(items, sep, k + 1) == |head| + o';
          SliceAfter(head, Join(rest, sep), o + |items[k]|, o');
        }
      }
    }
  }

  /** A slice of the second part of a concatenation, located in the whole. */
  lemma SliceAfter(a: string, b: string, i: nat, j: nat)
    requires i <= j <= |b|
    ensures (a + b)[|a| + i .. |a| + j] == b[i..j]
  {
  }

  /**
   * ErrorMessages: renders each error as "field: message" and joins the
   * renderings with ", ". No errors give the empty string.
   */
  method ErrorMessages(errors: seq<UserValidationError>) returns (s: string)
    ensures s == Join(Formatted(errors), ", ")
    ensures errors == [] ==> s == ""
    ensures |errors| == 1 ==> s == errors[0].field + ": " + errors[0].message
  {
    var messages: seq<string> := [];
    for i := 0 to |errors|
      invariant |messages| == i
      invariant forall k :: 0 <= k < i ==> messages[k] == FormatError(errors[k])
    {
      messages := messages + [errors[i].field + ": " + errors[i].message];
    }
    assert messages == Formatted(errors);
    s := Join(messages, ", ");
  }
}
