/** The booking form as the script reads it, JavaScript's `String.prototype.trim`,
    and the fail-fast validator `validarFormulario`. */
module Form {
  import opened Lists
  import Phone

  /** A character `trim` removes: ECMAScript WhiteSpace (tab, vertical tab,
      form feed, space, no-break space, byte order mark and the Unicode space
      separators) and LineTerminator (line feed, carriage return, line and
      paragraph separators). */
  predicate IsWhiteSpace(c: char) {
    var n := c as int;
    9 <= n <= 13 || n == 0x20 || n == 0xA0 || n == 0x1680 || 0x2000 <= n <= 0x200A
    || n == 0x2028 || n == 0x2029 || n == 0x202F || n == 0x205F || n == 0x3000 || n == 0xFEFF
  }

  /** The length of the longest all-white-space prefix of `s`. */
  function LeadingWhiteSpace(s: string): (k: nat)
    ensures k <= |s|
    ensures forall i :: 0 <= i < k ==> IsWhiteSpace(s[i])
    ensures k < |s| ==> !IsWhiteSpace(s[k])
  {
    if s == [] || !IsWhiteSpace(s[0]) then 0 else 1 + LeadingWhiteSpace(s[1..])
  }

  /** The length of the longest all-white-space suffix of `s`. */
  function TrailingWhiteSpace(s: string): (k: nat)
    ensures k <= |s|
    ensures forall i :: |s| - k <= i < |s| ==> IsWhiteSpace(s[i])
    ensures k < |s| ==> !IsWhiteSpace(s[|s| - 1 - k])
  {
    if s == [] || !IsWhiteSpace(s[|s| - 1]) then 0 else 1 + TrailingWhiteSpace(s[..|s| - 1])
  }

  /** `s.trim()`: `s` without its leading and trailing white space. */
  function Trim(s: string): (r: string)
    ensures |r| <= |s|
    ensures r == [] || (!IsWhiteSpace(r[0]) && !IsWhiteSpace(r[|r| - 1]))
  {
    var t := s[LeadingWhiteSpace(s)..];
    t[..|t| - TrailingWhiteSpace(t)]
  }

  /** `trim` keeps exactly one contiguous piece of its input and drops only
      white space around it. */
  lemma TrimIsSlice(s: string)
    ensures exists i, j :: 0 <= i <= j <= |s| && Trim(s) == s[i..j]
              && (forall k :: 0 <= k < i ==> IsWhiteSpace(s[k]))
              && (forall k :: j <= k < |s| ==> IsWhiteSpace(s[k]))
  {
    var i := LeadingWhiteSpace(s);
    var t := s[i..];
    var j := i + |t| - TrailingWhiteSpace(t);
    assert Trim(s) == s[i..j];
    forall k | j <= k < |s| ensures IsWhiteSpace(s[k]) {
      assert s[k] == t[k - i];
    }
  }

  /** Trimming a trimmed string changes nothing. */
  lemma TrimIdempotent(s: string)
    ensures Trim(Trim(s)) == Trim(s)
  {
    var r := Trim(s);
    assert LeadingWhiteSpace(r) == 0;
    assert r[0..] == r;
    assert TrailingWhiteSpace(r) == 0;
  }

  /** A clock time chosen in the hour list, `"HH:MM"` once split. */
  datatype ClockTime = ClockTime(hour: int, minute: int)

  /** The form fields the script reads. `date` is the selected calendar day
      (a day number) and `time` the selected hour; `None` stands for an empty
      field. `services` are the ticked service boxes, in page order. */
  datatype FormInput = FormInput(
    name: string,
    phone: string,
    professional: string,
    services: seq<string>,
    date: Option<int>,
    time: Option<ClockTime>)

  /** The outcome of `validarFormulario`: the form is valid, or the first
      check that failed (each comes with its own alert in the page). */
  datatype FormCheck = Valid | NameTooShort | InvalidPhone | NoProfessional | NoDateOrTime

  /** `validarFormulario`: the name (trimmed) needs three characters, then the
      phone must pass `validarTelefone`, then a professional must be chosen,
      then both date and hour; the first failing check is reported. */
  function ValidateForm(f: FormInput): (r: FormCheck)
    ensures r == Valid <==>
      |Trim(f.name)| >= 3 && Phone.ValidPhone(f.phone) && f.professional != "" && f.date.Some? && f.time.Some?
    ensures r == NameTooShort <==> |Trim(f.name)| < 3
    ensures r == InvalidPhone <==> |Trim(f.name)| >= 3 && !Phone.ValidPhone(f.phone)
    ensures r == NoProfessional <==> |Trim(f.name)| >= 3 && Phone.ValidPhone(f.phone) && f.professional == ""
    ensures r == NoDateOrTime <==>
      |Trim(f.name)| >= 3 && Phone.ValidPhone(f.phone) && f.professional != "" && (f.date.None? || f.time.None?)
  {
    if |Trim(f.name)| < 3 then NameTooShort
    else if !Phone.ValidPhone(f.phone) then InvalidPhone
    else if f.professional == "" then NoProfessional
    else if f.date.None? || f.time.None? then NoDateOrTime
    else Valid
  }

  /** A form with an acceptable name and the phone "123" is refused for its
      phone, whatever the other fields hold. */
  lemma ShortPhoneFormRejected(f: FormInput)
    requires |Trim(f.name)| >= 3 && f.phone == "123"
    ensures ValidateForm(f) == InvalidPhone
  {
    Phone.ShortPhoneRejected();
  }
}
