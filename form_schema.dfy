/**
 * The registration form's validation schema (`formSchema` in pages/index.tsx)
 * and what the form reports from it.
 *
 * Every field is a string check chain. The schema library runs every check of
 * every field and collects one issue per failing check, in the order the keys
 * and checks are declared; the object-level refinement on the password pair
 * runs after the fields. The form's resolver then keeps, for each field path,
 * the message of the FIRST issue on that path. `Validate` returns either the
 * accepted values (unchanged: no check transforms its input) or that map.
 */
module FormSchema {
  import opened Wrappers
  import opened Records

  /** The field paths an error can be reported on; `AddressValue(i)` is `address.i.value`. */
  datatype FieldPath = Name | Age | Dob | PhoneNumber | AddressValue(index: nat) | Password | ConfirmPassword

  /** One failed check: where it is reported and what it says. */
  datatype Issue = Issue(path: FieldPath, message: string)

  const NameBlank := "Name cannot be blank"
  const NameTooLong := "Name should be less than or equal to 20 characters"
  const NameInvalid := "Name cannot contain numbers or special characters"
  const DobBlank := "Date of birth cannot be blank"
  const DobTooLate := "Date of birth cannot be greater than today's date"
  const PhoneBlank := "Phone number cannot be blank"
  const PhoneHasLetters := "Phone number cannot contain letters"
  const PhoneTooShort := "Phone number should be at least 8 digits"
  const PhoneTooLong := "Phone number should be at most 10 digits"
  const AddressBlank := "Address cannot be blank"
  const AgeNotNumber := "Expected number, received a string"
  const PasswordsMismatch := "Passwords do not match"

  const NameMaxLength := 20
  const PhoneMinLength := 8
  const PhoneMaxLength := 10

  // ---------------------------------------------------------------------------
  // Character classes and the two patterns

  predicate IsAsciiLetter(c: char) { 'a' <= c <= 'z' || 'A' <= c <= 'Z' }

  predicate IsDigit(c: char) { '0' <= c <= '9' }

  /** `/^[a-zA-Z ]*$/` */
  predicate MatchesNamePattern(s: string)
  {
    forall i :: 0 <= i < |s| ==> IsAsciiLetter(s[i]) || s[i] == ' '
  }

  /** `/^[0-9]*$/` */
  predicate MatchesDigitsPattern(s: string)
  {
    forall i :: 0 <= i < |s| ==> IsDigit(s[i])
  }

  // ---------------------------------------------------------------------------
  // parseInt(val, 10)

  /** The characters `parseInt` skips before the number: white space and line terminators. */
  predicate IsJsWhiteSpace(c: char)
  {
    || c == '\t' || c == '\U{000B}' || c == '\U{000C}' || c == ' ' || c == '\U{00A0}' || c == '\U{FEFF}'
    || c == '\U{1680}' || ('\U{2000}' <= c <= '\U{200A}') || c == '\U{202F}' || c == '\U{205F}' || c == '\U{3000}'
    || c == '\n' || c == '\r' || c == '\U{2028}' || c == '\U{2029}'
  }

  /** `s` with its leading white space removed. */
  function TrimStart(s: string): string
  {
    if s != [] && IsJsWhiteSpace(s[0]) then TrimStart(s[1..]) else s
  }

  /** Trimming keeps a suffix, removes only white space, and stops at the first other character. */
  lemma {:induction false} TrimStartSuffix(s: string)
    ensures |TrimStart(s)| <= |s| && TrimStart(s) == s[|s| - |TrimStart(s)|..]
    ensures forall i :: 0 <= i < |s| - |TrimStart(s)| ==> IsJsWhiteSpace(s[i])
    ensures TrimStart(s) == [] || !IsJsWhiteSpace(TrimStart(s)[0])
  {
    if s != [] && IsJsWhiteSpace(s[0]) {
      TrimStartSuffix(s[1..]);
      assert forall i :: 1 <= i < |s| ==> s[i] == s[1..][i - 1];
    }
  }

  /** `s` without one leading `+` or `-`. */
  function StripSign(s: string): string
  {
    if s != [] && (s[0] == '+' || s[0] == '-') then s[1..] else s
  }

  /**
   * `!Number.isNaN(parseInt(val, 10))`: after leading white space and an
   * optional sign there is at least one decimal digit (what follows it is ignored).
   */
  predicate ParsesAsInt(val: string)
  {
    var digits := StripSign(TrimStart(val));
    digits != [] && IsDigit(digits[0])
  }

  // ---------------------------------------------------------------------------
  // Acceptance, field by field

  predicate NameAccepted(name: string)
  {
    0 < |name| <= NameMaxLength && MatchesNamePattern(name)
  }

  /** `now` is the bound passed to `.max(Date.now())`, which a string schema reads as a length bound. */
  predicate DobAccepted(dob: string, now: int)
  {
    0 < |dob| <= now
  }

  predicate PhoneAccepted(phone: string)
  {
    PhoneMinLength <= |phone| <= PhoneMaxLength && MatchesDigitsPattern(phone)
  }

  predicate AddressesAccepted(address: seq<Address>)
  {
    forall i :: 0 <= i < |address| ==> address[i].value != ""
  }

  predicate FormAccepted(v: FormValues, now: int)
  {
    && NameAccepted(v.name)
    && DobAccepted(v.dob, now)
    && PhoneAccepted(v.phoneNumber)
    && AddressesAccepted(v.address)
    && ParsesAsInt(v.age)
    && v.password == v.confirmPassword
  }

  // ---------------------------------------------------------------------------
  // The issues the schema produces, in order

  function NameIssues(name: string): seq<Issue>
  {
    (if |name| < 1 then [Issue(Name, NameBlank)] else [])
    + (if |name| > NameMaxLength then [Issue(Name, NameTooLong)] else [])
    + (if !MatchesNamePattern(name) then [Issue(Name, NameInvalid)] else [])
  }

  function DobIssues(dob: string, now: int): seq<Issue>
  {
    (if |dob| < 1 then [Issue(Dob, DobBlank)] else [])
    + (if |dob| > now then [Issue(Dob, DobTooLate)] else [])
  }

  function PhoneIssues(phone: string): seq<Issue>
  {
    (if |phone| < 1 then [Issue(PhoneNumber, PhoneBlank)] else [])
    + (if !MatchesDigitsPattern(phone) then [Issue(PhoneNumber, PhoneHasLetters)] else [])
    + (if |phone| < PhoneMinLength then [Issue(PhoneNumber, PhoneTooShort)] else [])
    + (if |phone| > PhoneMaxLength then [Issue(PhoneNumber, PhoneTooLong)] else [])
  }

  /** The issues of the address rows `address`, the first of which is row `start`. */
  function AddressIssues(address: seq<Address>, start: nat): seq<Issue>
  {
    if address == [] then []
    else
      (if address[0].value == "" then [Issue(AddressValue(start), AddressBlank)] else [])
      + AddressIssues(address[1..], start + 1)
  }

  function AgeIssues(age: string): seq<Issue>
  {
    if ParsesAsInt(age) then [] else [Issue(Age, AgeNotNumber)]
  }

  /** The object-level refinement: the error goes to `confirmPassword`. */
  function PasswordIssues(password: string, confirmPassword: string): seq<Issue>
  {
    if password == confirmPassword then [] else [Issue(ConfirmPassword, PasswordsMismatch)]
  }

  /** Every issue, in the order of the schema's keys, then the refinement. */
  function Issues(v: FormValues, now: int): seq<Issue>
  {
    NameIssues(v.name)
    + DobIssues(v.dob, now)
    + PhoneIssues(v.phoneNumber)
    + AddressIssues(v.address, 0)
    + AgeIssues(v.age)
    + PasswordIssues(v.password, v.confirmPassword)
  }

  // ---------------------------------------------------------------------------
  // The resolver: first message per path

  /** The message of the first issue on path `p`, if any. */
  function Lookup(issues: seq<Issue>, p: FieldPath): Option<string>
  {
    if issues == [] then None
    else if issues[0].path == p then Some(issues[0].message)
    else Lookup(issues[1..], p)
  }

  /** `a`, or `b` when `a` is absent. */
  function OrElse(a: Option<string>, b: Option<string>): Option<string>
  {
    if a.Some? then a else b
  }

  /** The message of the first issue on path `p`. `FirstPerPath` only asks for paths that have an issue, so the "" branch is never reached. */
  function FirstMessage(issues: seq<Issue>, p: FieldPath): string
  {
    match Lookup(issues, p)
    case Some(m) => m
    case None => ""
  }

  /** The resolver's error map: each path that has an issue, with its first message. */
  function FirstPerPath(issues: seq<Issue>): map<FieldPath, string>
  {
    map i | 0 <= i < |issues| :: issues[i].path := FirstMessage(issues, issues[i].path)
  }

  /** Some issue lies on path `p` exactly when a first one is found. */
  lemma {:induction false} LookupFinds(issues: seq<Issue>, p: FieldPath)
    ensures Lookup(issues, p).Some? <==> exists i :: 0 <= i < |issues| && issues[i].path == p
  {
    if issues != [] {
      LookupFinds(issues[1..], p);
      if Lookup(issues[1..], p).Some? {
        var i :| 0 <= i < |issues[1..]| && issues[1..][i].path == p;
        assert issues[i + 1].path == p;
      }
      if exists i :: 0 <= i < |issues| && issues[i].path == p {
        var i :| 0 <= i < |issues| && issues[i].path == p;
        if i > 0 {
          assert issues[1..][i - 1].path == p;
        }
      }
    }
  }

  /** The resolver's map holds, for each path, the first issue's message, and nothing for paths without issues. */
  lemma FirstPerPathIsFirst(issues: seq<Issue>, p: FieldPath)
    ensures Lookup(issues, p) == if p in FirstPerPath(issues) then Some(FirstPerPath(issues)[p]) else None
  {
  }

  /** The schema run through the resolver. */
  function Validate(v: FormValues, now: int): Result<FormValues, map<FieldPath, string>>
  {
    var issues := Issues(v, now);
    if issues == [] then Ok(v) else Err(FirstPerPath(issues))
  }

  /** The entry the error map holds at path `p` (`errors.<p>?.message`). */
  function ErrorAt(v: FormValues, now: int, p: FieldPath): Option<string>
  {
    match Validate(v, now)
    case Ok(_) => None
    case Err(m) => if p in m then Some(m[p]) else None
  }

  // ---------------------------------------------------------------------------
  // Lemmas

  /** The first issue on a path in `a + b` is the first in `a`, or else the first in `b`. */
  lemma {:induction false} LookupAppend(a: seq<Issue>, b: seq<Issue>, p: FieldPath)
    ensures Lookup(a + b, p) == OrElse(Lookup(a, p), Lookup(b, p))
  {
    if a == [] {
      assert a + b == b;
    } else {
      assert (a + b)[1..] == a[1..] + b;
      LookupAppend(a[1..], b, p);
    }
  }

  /** The error map's entry at a path is the first issue on that path. */
  lemma ErrorAtIsFirstIssue(v: FormValues, now: int, p: FieldPath)
    ensures ErrorAt(v, now, p) == Lookup(Issues(v, now), p)
  {
    var issues := Issues(v, now);
    if issues == [] {
      assert Validate(v, now) == Ok(v);
    } else {
      var m := FirstPerPath(issues);
      assert Validate(v, now) == Err(m);
      FirstPerPathIsFirst(issues, p);
    }
  }

  /** The first issue on `p` among all issues, given which segments have none on `p`. */
  lemma LookupIssues(v: FormValues, now: int, p: FieldPath)
    ensures Lookup(Issues(v, now), p)
         == OrElse(Lookup(NameIssues(v.name), p),
            OrElse(Lookup(DobIssues(v.dob, now), p),
            OrElse(Lookup(PhoneIssues(v.phoneNumber), p),
            OrElse(Lookup(AddressIssues(v.address, 0), p),
            OrElse(Lookup(AgeIssues(v.age), p),
                   Lookup(PasswordIssues(v.password, v.confirmPassword), p))))))
  {
    var a := NameIssues(v.name);
    var b := DobIssues(v.dob, now);
    var c := PhoneIssues(v.phoneNumber);
    var d := AddressIssues(v.address, 0);
    var e := AgeIssues(v.age);
    var f := PasswordIssues(v.password, v.confirmPassword);
    LookupAppend(a, b, p);
    LookupAppend(a + b, c, p);
    LookupAppend(a + b + c, d, p);
    LookupAppend(a + b + c + d, e, p);
    LookupAppend(a + b + c + d + e, f, p);
  }

  lemma NameIssuesLookup(name: string, p: FieldPath)
    ensures Lookup(NameIssues(name), p)
         == if p != Name then None
            else if |name| == 0 then Some(NameBlank)
            else if |name| > NameMaxLength then Some(NameTooLong)
            else if !MatchesNamePattern(name) then Some(NameInvalid)
            else None
  {
    var a := if |name| < 1 then [Issue(Name, NameBlank)] else [];
    var b := if |name| > NameMaxLength then [Issue(Name, NameTooLong)] else [];
    var c := if !MatchesNamePattern(name) then [Issue(Name, NameInvalid)] else [];
    LookupAppend(a, b, p);
    LookupAppend(a + b, c, p);
  }

  lemma DobIssuesLookup(dob: string, now: int, p: FieldPath)
    ensures Lookup(DobIssues(dob, now), p)
         == if p != Dob then None
            else if |dob| == 0 then Some(DobBlank)
            else if |dob| > now then Some(DobTooLate)
            else None
  {
    var a := if |dob| < 1 then [Issue(Dob, DobBlank)] else [];
    var b := if |dob| > now then [Issue(Dob, DobTooLate)] else [];
    LookupAppend(a, b, p);
  }

  lemma PhoneIssuesLookup(phone: string, p: FieldPath)
    ensures Lookup(PhoneIssues(phone), p)
         == if p != PhoneNumber then None
            else if |phone| == 0 then Some(PhoneBlank)
            else if !MatchesDigitsPattern(phone) then Some(PhoneHasLetters)
            else if |phone| < PhoneMinLength then Some(PhoneTooShort)
            else if |phone| > PhoneMaxLength then Some(PhoneTooLong)
            else None
  {
    var a := if |phone| < 1 then [Issue(PhoneNumber, PhoneBlank)] else [];
    var b := if !MatchesDigitsPattern(phone) then [Issue(PhoneNumber, PhoneHasLetters)] else [];
    var c := if |phone| < PhoneMinLength then [Issue(PhoneNumber, PhoneTooShort)] else [];
    var d := if |phone| > PhoneMaxLength then [Issue(PhoneNumber, PhoneTooLong)] else [];
    LookupAppend(a, b, p);
    LookupAppend(a + b, c, p);
    LookupAppend(a + b + c, d, p);
  }

  /** The address row issues report row `i` blank exactly when row `i` is empty, and nothing on other paths. */
  lemma {:induction false} AddressIssuesLookup(address: seq<Address>, start: nat, i: nat)
    ensures Lookup(AddressIssues(address, start), AddressValue(i))
         == if start <= i < start + |address| && address[i - start].value == "" then Some(AddressBlank) else None
  {
    if address != [] {
      var rest := address[1..];
      var head := if address[0].value == "" then [Issue(AddressValue(start), AddressBlank)] else [];
      assert AddressIssues(address, start) == head + AddressIssues(rest, start + 1);
      LookupAppend(head, AddressIssues(rest, start + 1), AddressValue(i));
      AddressIssuesLookup(rest, start + 1, i);
      if start < i < start + |address| {
        assert rest[i - (start + 1)] == address[i - start];
      }
    }
  }

  /** The address rows raise issues on row paths only. */
  lemma {:induction false} AddressIssuesOther(address: seq<Address>, start: nat, p: FieldPath)
    requires !p.AddressValue?
    ensures Lookup(AddressIssues(address, start), p) == None
  {
    if address != [] {
      var head := if address[0].value == "" then [Issue(AddressValue(start), AddressBlank)] else [];
      LookupAppend(head, AddressIssues(address[1..], start + 1), p);
      AddressIssuesOther(address[1..], start + 1, p);
    }
  }

  lemma AgeIssuesLookup(age: string, p: FieldPath)
    ensures Lookup(AgeIssues(age), p) == if p == Age && !ParsesAsInt(age) then Some(AgeNotNumber) else None
  {
  }

  lemma PasswordIssuesLookup(password: string, confirmPassword: string, p: FieldPath)
    ensures Lookup(PasswordIssues(password, confirmPassword), p)
         == if p == ConfirmPassword && password != confirmPassword then Some(PasswordsMismatch) else None
  {
  }

  /** The error map's entry at `p`, segment by segment. */
  lemma ErrorAtSegments(v: FormValues, now: int, p: FieldPath)
    ensures ErrorAt(v, now, p)
         == OrElse(Lookup(NameIssues(v.name), p),
            OrElse(Lookup(DobIssues(v.dob, now), p),
            OrElse(Lookup(PhoneIssues(v.phoneNumber), p),
            OrElse(Lookup(AddressIssues(v.address, 0), p),
            OrElse(Lookup(AgeIssues(v.age), p),
                   Lookup(PasswordIssues(v.password, v.confirmPassword), p))))))
  {
    ErrorAtIsFirstIssue(v, now, p);
    LookupIssues(v, now, p);
  }

  /** No address row issue at all exactly when every row is filled in. */
  lemma {:induction false} AddressIssuesEmpty(address: seq<Address>, start: nat)
    ensures AddressIssues(address, start) == [] <==> AddressesAccepted(address)
  {
    if address != [] {
      AddressIssuesEmpty(address[1..], start + 1);
      assert forall i :: 1 <= i < |address| ==> address[i] == address[1..][i - 1];
    }
  }

  /** The form is accepted exactly when every field rule holds, and the accepted value is the input. */
  lemma ValidateAcceptsIff(v: FormValues, now: int)
    ensures Validate(v, now).Ok? <==> FormAccepted(v, now)
    ensures Validate(v, now).Ok? ==> Validate(v, now).value == v
  {
    AddressIssuesEmpty(v.address, 0);
  }

  /** Validating accepted values again accepts them again. */
  lemma ValidateIdempotent(v: FormValues, now: int)
    requires Validate(v, now).Ok?
    ensures Validate(Validate(v, now).value, now) == Validate(v, now)
  {
  }

  /** The name message: blank, then too long, then bad characters. */
  lemma NameReported(v: FormValues, now: int)
    ensures ErrorAt(v, now, Name)
         == if |v.name| == 0 then Some(NameBlank)
            else if |v.name| > NameMaxLength then Some(NameTooLong)
            else if !MatchesNamePattern(v.name) then Some(NameInvalid)
            else None
    ensures ErrorAt(v, now, Name).None? <==> NameAccepted(v.name)
  {
    ErrorAtSegments(v, now, Name);
    NameIssuesLookup(v.name, Name);
    DobIssuesLookup(v.dob, now, Name);
    PhoneIssuesLookup(v.phoneNumber, Name);
    AddressIssuesOther(v.address, 0, Name);
    AgeIssuesLookup(v.age, Name);
    PasswordIssuesLookup(v.password, v.confirmPassword, Name);
  }

  /** The date-of-birth message: blank, then longer than the bound. */
  lemma DobReported(v: FormValues, now: int)
    ensures ErrorAt(v, now, Dob)
         == if |v.dob| == 0 then Some(DobBlank)
            else if |v.dob| > now then Some(DobTooLate)
            else None
    ensures ErrorAt(v, now, Dob).None? <==> DobAccepted(v.dob, now)
  {
    ErrorAtSegments(v, now, Dob);
    NameIssuesLookup(v.name, Dob);
    DobIssuesLookup(v.dob, now, Dob);
    PhoneIssuesLookup(v.phoneNumber, Dob);
    AddressIssuesOther(v.address, 0, Dob);
    AgeIssuesLookup(v.age, Dob);
    PasswordIssuesLookup(v.password, v.confirmPassword, Dob);
  }

  /** The phone message: blank, then non-digits, then too short, then too long. */
  lemma PhoneReported(v: FormValues, now: int)
    ensures ErrorAt(v, now, PhoneNumber)
         == if |v.phoneNumber| == 0 then Some(PhoneBlank)
            else if !MatchesDigitsPattern(v.phoneNumber) then Some(PhoneHasLetters)
            else if |v.phoneNumber| < PhoneMinLength then Some(PhoneTooShort)
            else if |v.phoneNumber| > PhoneMaxLength then Some(PhoneTooLong)
            else None
    ensures ErrorAt(v, now, PhoneNumber).None? <==> PhoneAccepted(v.phoneNumber)
  {
    ErrorAtSegments(v, now, PhoneNumber);
    NameIssuesLookup(v.name, PhoneNumber);
    DobIssuesLookup(v.dob, now, PhoneNumber);
    PhoneIssuesLookup(v.phoneNumber, PhoneNumber);
    AddressIssuesOther(v.address, 0, PhoneNumber);
    AgeIssuesLookup(v.age, PhoneNumber);
    PasswordIssuesLookup(v.password, v.confirmPassword, PhoneNumber);
  }

  /** Row `i` reports "blank" exactly when it exists and is empty; the list's own length is never checked. */
  lemma AddressReported(v: FormValues, now: int, i: nat)
    ensures ErrorAt(v, now, AddressValue(i))
         == if i < |v.address| && v.address[i].value == "" then Some(AddressBlank) else None
  {
    var p := AddressValue(i);
    var found := Lookup(AddressIssues(v.address, 0), p);
    AddressIssuesLookup(v.address, 0, i);
    assert ErrorAt(v, now, p) == found by {
      ErrorAtSegments(v, now, p);
      NameIssuesLookup(v.name, p);
      DobIssuesLookup(v.dob, now, p);
      PhoneIssuesLookup(v.phoneNumber, p);
      AgeIssuesLookup(v.age, p);
      PasswordIssuesLookup(v.password, v.confirmPassword, p);
    }
  }

  /** The age message appears exactly when `parseInt` gives NaN. */
  lemma AgeReported(v: FormValues, now: int)
    ensures ErrorAt(v, now, Age) == if ParsesAsInt(v.age) then None else Some(AgeNotNumber)
  {
    ErrorAtSegments(v, now, Age);
    NameIssuesLookup(v.name, Age);
    DobIssuesLookup(v.dob, now, Age);
    PhoneIssuesLookup(v.phoneNumber, Age);
    AddressIssuesOther(v.address, 0, Age);
    AgeIssuesLookup(v.age, Age);
    PasswordIssuesLookup(v.password, v.confirmPassword, Age);
  }

  /** Unequal passwords are reported on `confirmPassword`, equal ones (both empty included) are not. */
  lemma ConfirmPasswordReported(v: FormValues, now: int)
    ensures ErrorAt(v, now, ConfirmPassword)
         == if v.password != v.confirmPassword then Some(PasswordsMismatch) else None
  {
    ErrorAtSegments(v, now, ConfirmPassword);
    NameIssuesLookup(v.name, ConfirmPassword);
    DobIssuesLookup(v.dob, now, ConfirmPassword);
    PhoneIssuesLookup(v.phoneNumber, ConfirmPassword);
    AddressIssuesOther(v.address, 0, ConfirmPassword);
    AgeIssuesLookup(v.age, ConfirmPassword);
    PasswordIssuesLookup(v.password, v.confirmPassword, ConfirmPassword);
  }

  /** No rule reports anything on `password` itself. */
  lemma PasswordNeverReported(v: FormValues, now: int)
    ensures ErrorAt(v, now, Password) == None
  {
    ErrorAtSegments(v, now, Password);
    NameIssuesLookup(v.name, Password);
    DobIssuesLookup(v.dob, now, Password);
    PhoneIssuesLookup(v.phoneNumber, Password);
    AddressIssuesOther(v.address, 0, Password);
    AgeIssuesLookup(v.age, Password);
    PasswordIssuesLookup(v.password, v.confirmPassword, Password);
  }

  /** `parseInt` accepts white space, an optional sign and a digit, whatever follows. */
  lemma ParsesAsIntDigitPrefix(ws: string, sign: string, d: char, rest: string)
    requires forall i :: 0 <= i < |ws| ==> IsJsWhiteSpace(ws[i])
    requires sign == [] || sign == ['+'] || sign == ['-']
    requires IsDigit(d)
    ensures ParsesAsInt(ws + sign + [d] + rest)
  {
    var tail := sign + ([d] + rest);
    assert ws + sign + [d] + rest == ws + tail;
    assert !IsJsWhiteSpace(tail[0]) by {
      assert tail[0] == if sign == [] then d else sign[0];
    }
    TrimStartSkipsWhiteSpace(ws, tail);
    StripSignBeforeDigit(sign, [d] + rest);
  }

  lemma StripSignBeforeDigit(sign: string, digits: string)
    requires sign == [] || sign == ['+'] || sign == ['-']
    requires digits != [] && IsDigit(digits[0])
    ensures StripSign(sign + digits) == digits
  {
    if sign == [] {
      assert sign + digits == digits;
    } else {
      assert (sign + digits)[1..] == digits;
    }
  }

  lemma {:induction false} TrimStartSkipsWhiteSpace(ws: string, tail: string)
    requires forall i :: 0 <= i < |ws| ==> IsJsWhiteSpace(ws[i])
    requires tail != [] && !IsJsWhiteSpace(tail[0])
    ensures TrimStart(ws + tail) == tail
  {
    if ws != [] {
      assert (ws + tail)[1..] == ws[1..] + tail;
      TrimStartSkipsWhiteSpace(ws[1..], tail);
    } else {
      assert ws + tail == tail;
    }
  }

  /** Conversely, every string `parseInt` accepts is white space, an optional sign and a digit, then anything. */
  lemma ParsesAsIntShape(val: string) returns (ws: string, sign: string, d: char, rest: string)
    requires ParsesAsInt(val)
    ensures forall i :: 0 <= i < |ws| ==> IsJsWhiteSpace(ws[i])
    ensures sign == [] || sign == ['+'] || sign == ['-']
    ensures IsDigit(d)
    ensures val == ws + sign + [d] + rest
  {
    ws := TrimmedPrefix(val);
    var t := TrimStart(val);
    sign := SignPrefix(t);
    var digits := StripSign(t);
    d := digits[0];
    rest := digits[1..];
    assert digits == [d] + rest;
    assert val == ws + (sign + ([d] + rest));
  }

  /** The white space `TrimStart` removes. */
  lemma TrimmedPrefix(val: string) returns (ws: string)
    ensures forall i :: 0 <= i < |ws| ==> IsJsWhiteSpace(ws[i])
    ensures val == ws + TrimStart(val)
  {
    var t := TrimStart(val);
    TrimStartSuffix(val);
    ws := val[..|val| - |t|];
    forall i | 0 <= i < |ws|
      ensures IsJsWhiteSpace(ws[i])
    {
      assert ws[i] == val[i];
    }
  }

  /** The sign `StripSign` removes. */
  lemma SignPrefix(t: string) returns (sign: string)
    ensures sign == [] || sign == ['+'] || sign == ['-']
    ensures t == sign + StripSign(t)
  {
    sign := if StripSign(t) == t then [] else [t[0]];
  }

  /** A string with no decimal digit (the empty one included) never parses. */
  lemma NoDigitNoInt(val: string)
    requires forall i :: 0 <= i < |val| ==> !IsDigit(val[i])
    ensures !ParsesAsInt(val)
  {
    var t := TrimStart(val);
    TrimStartSuffix(val);
    if t != [] {
      assert t[0] == val[|val| - |t|];
      if |t| > 1 { assert t[1] == val[|val| - |t| + 1]; }
    }
  }

  /** Worked cases of the age rule: a numeric prefix is enough, nothing is not. */
  lemma AgeExamples()
    ensures ParsesAsInt("12abc") && ParsesAsInt(" -7") && !ParsesAsInt("") && !ParsesAsInt("abc") && !ParsesAsInt("-")
  {
    ParsesAsIntDigitPrefix("", "", '1', "2abc");
    assert "" + "" + ['1'] + "2abc" == "12abc";
    ParsesAsIntDigitPrefix(" ", "-", '7', "");
    assert " " + "-" + ['7'] + "" == " -7";
    NoDigitNoInt("abc");
    NoDigitNoInt("-");
  }
}
