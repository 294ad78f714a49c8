/** The checks the two submission handlers run before anything is stored. */
module Validation {
  import opened Types
  import opened Regex

  /** Why a submission was turned away. */
  datatype Rejection = MissingField | InvalidName | InvalidPhone

  /** A submitted field counts as missing when it is falsy, i.e. the empty string. */
  predicate Present(s: string) {
    s != ""
  }

  predicate IsAsciiLetter(c: char) {
    'A' <= c <= 'Z' || 'a' <= c <= 'z'
  }

  predicate IsDigit(c: char) {
    '0' <= c <= '9'
  }

  /** The name rule stated directly: at least three characters, each an ASCII
      letter or whitespace. */
  predicate ValidName(s: string) {
    |s| >= 3 && forall i | 0 <= i < |s| :: IsAsciiLetter(s[i]) || IsJsWhitespace(s[i])
  }

  /** The phone rule stated directly: exactly ten ASCII digits, the first one
      between 6 and 9. */
  predicate ValidPhone(s: string) {
    |s| == 10 && '6' <= s[0] <= '9' && forall i | 0 <= i < |s| :: IsDigit(s[i])
  }

  /** `[A-Za-z\s]` */
  const NameClass: CharClass := [Range('A', 'Z'), Range('a', 'z'), Space]

  /** `/^[A-Za-z\s]{3,}$/` */
  const NamePattern: seq<Atom> := [Atom(NameClass, 3, None)]

  /** `/^[6-9]\d{9}$/` */
  const PhonePattern: seq<Atom> := [Atom([Range('6', '9')], 1, Some(1)), Atom([Range('0', '9')], 9, Some(9))]

  lemma NameClassHas(c: char)
    ensures ClassHas(NameClass, c) <==> IsAsciiLetter(c) || IsJsWhitespace(c)
  {
    if ClassHas(NameClass, c) {
      var i :| 0 <= i < |NameClass| && ItemHas(NameClass[i], c);
      assert i == 0 || i == 1 || i == 2;
    }
    if 'A' <= c <= 'Z' {
      assert ItemHas(NameClass[0], c);
    } else if 'a' <= c <= 'z' {
      assert ItemHas(NameClass[1], c);
    } else if IsJsWhitespace(c) {
      assert ItemHas(NameClass[2], c);
    }
  }

  /** The name regex accepts exactly the names of the direct rule. */
  lemma NamePatternExact(s: string)
    ensures FullMatch(NamePattern, s) <==> ValidName(s)
  {
    FullMatchOne(NamePattern[0], s);
    forall i | 0 <= i < |s|
      ensures ClassHas(NameClass, s[i]) <==> IsAsciiLetter(s[i]) || IsJsWhitespace(s[i])
    {
      NameClassHas(s[i]);
    }
  }

  /** The phone regex accepts exactly the numbers of the direct rule. */
  lemma PhonePatternExact(s: string)
    ensures FullMatch(PhonePattern, s) <==> ValidPhone(s)
  {
    var lead, rest := PhonePattern[0], PhonePattern[1];
    assert PhonePattern == [lead, rest];
    FullMatchTwo(lead, rest, s);
    forall c: char
      ensures ClassHas(lead.cls, c) <==> '6' <= c <= '9'
      ensures ClassHas(rest.cls, c) <==> IsDigit(c)
    {
      SingleItemClass(lead.cls[0], c);
      SingleItemClass(rest.cls[0], c);
      assert lead.cls == [lead.cls[0]] && rest.cls == [rest.cls[0]];
    }
    if ValidPhone(s) {
      assert Consumes(lead, s[..1]);
      assert Consumes(rest, s[1..]) by {
        forall i | 0 <= i < |s[1..]|
          ensures ClassHas(rest.cls, s[1..][i])
        {
          assert s[1..][i] == s[i + 1];
        }
      }
    }
    if FullMatch(PhonePattern, s) {
      var k :| 0 <= k <= |s| && Consumes(lead, s[..k]) && Consumes(rest, s[k..]);
      assert k == 1;
      assert '6' <= s[..k][0] <= '9';
      forall i | 0 <= i < |s|
        ensures IsDigit(s[i])
      {
        if i == 0 {
          assert s[i] == s[..k][0];
        } else {
          assert s[i] == s[k..][i - 1];
        }
      }
    }
  }

  /** `nameRegex.test(name)` */
  function TestName(name: string): (ok: bool)
    ensures ok <==> ValidName(name)
  {
    NamePatternExact(name);
    FullMatch(NamePattern, name)
  }

  /** `phoneRegex.test(phone)` */
  function TestPhone(phone: string): (ok: bool)
    ensures ok <==> ValidPhone(phone)
  {
    PhonePatternExact(phone);
    FullMatch(PhonePattern, phone)
  }

  predicate AllBookingFieldsPresent(f: BookingForm) {
    Present(f.name) && Present(f.phone) && Present(f.pickup) && Present(f.drop) && Present(f.date)
  }

  /** The booking checks in their fixed order: missing field, then name, then phone;
      the first failure is the answer and `None` means the booking is accepted. */
  function CheckBooking(f: BookingForm): (r: Option<Rejection>)
    ensures r == Some(MissingField) <==> !AllBookingFieldsPresent(f)
    ensures r == Some(InvalidName) <==> AllBookingFieldsPresent(f) && !ValidName(f.name)
    ensures r == Some(InvalidPhone) <==>
      AllBookingFieldsPresent(f) && ValidName(f.name) && !ValidPhone(f.phone)
    ensures r == None <==> AllBookingFieldsPresent(f) && ValidName(f.name) && ValidPhone(f.phone)
  {
    if f.name == "" || f.phone == "" || f.pickup == "" || f.drop == "" || f.date == "" then
      Some(MissingField)
    else if !TestName(f.name) then
      Some(InvalidName)
    else if !TestPhone(f.phone) then
      Some(InvalidPhone)
    else
      None
  }

  /** The contact check: only presence of name, email and message; no format rule. */
  function CheckContact(f: ContactForm): (r: Option<Rejection>)
    ensures r.Some? <==> !Present(f.name) || !Present(f.email) || !Present(f.message)
    ensures r.Some? ==> r.value == MissingField
  {
    if f.name == "" || f.email == "" || f.message == "" then Some(MissingField) else None
  }

  /** A name that is too short or holds a digit is refused as an invalid name once
      every field is present, whatever the phone. */
  lemma ShortOrDigitNameRejected(f: BookingForm, i: nat)
    requires AllBookingFieldsPresent(f)
    requires |f.name| < 3 || (i < |f.name| && IsDigit(f.name[i]))
    ensures CheckBooking(f) == Some(InvalidName)
  {
  }

  /** A phone of the wrong length, with a non-digit, or led by 0..5 is refused as an
      invalid phone once the fields are present and the name is valid. */
  lemma BadPhoneRejected(f: BookingForm, i: nat)
    requires AllBookingFieldsPresent(f) && ValidName(f.name)
    requires |f.phone| != 10 || (i < |f.phone| && !IsDigit(f.phone[i])) || '0' <= f.phone[0] <= '5'
    ensures CheckBooking(f) == Some(InvalidPhone)
  {
  }

  /** Sample inputs: a name of letters and a space passes, and so does a name made
      only of whitespace; a two-letter name and a name with a digit do not; a phone
      led by 9 passes and one led by 5 does not. */
  lemma RuleExamples()
    ensures ValidName("Jane Doe") && ValidName("   ")
    ensures !ValidName("Jo") && !ValidName("Jane2")
    ensures ValidPhone("9876543210") && !ValidPhone("5876543210") && !ValidPhone("987654321")
  {
    assert !IsAsciiLetter("Jane2"[4]) && !IsJsWhitespace("Jane2"[4]);
  }
}
