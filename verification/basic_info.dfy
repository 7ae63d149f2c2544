/** `validateBasicInfo` of the shared basic-information section: a fixed
    sequence of checks, each of which appends its own message. */
module BasicInfo {
  import opened Strings
  import opened Lists
  import opened Types

  const MsgEnrollment := "Admission/Enrollment Number is mandatory."
  const MsgName := "Legal Full Name is mandatory."
  const MsgFather := "Father's Name is mandatory."
  const MsgMother := "Mother's Name is mandatory."
  const MsgProgramme := "Academic Programme must be selected."
  const MsgSession := "Batch Session must be selected."
  const MsgYear := "Current Academic Year is required."
  const MsgPhoto := "Passport size photo (4x6cm) is required for identity verification."
  const MsgMobileMissing := "Primary Contact Number is mandatory."
  const MsgMobileFormat := "Contact Number must be a valid 10-digit numeric sequence."
  const MsgWhatsappMissing := "WhatsApp Contact Number is mandatory."
  const MsgWhatsappFormat := "WhatsApp Number must be a valid 10-digit numeric sequence."
  const MsgEmailMissing := "Official Email Identity is mandatory."
  const MsgEmailFormat := "Please enter a valid email format (e.g., student@example.com)."

  /** Every message the validator can produce, in the order it checks. */
  function Catalogue(): seq<string>
  {
    [MsgEnrollment, MsgName, MsgFather, MsgMother, MsgProgramme, MsgSession, MsgYear,
     MsgPhoto, MsgMobileMissing, MsgMobileFormat, MsgWhatsappMissing, MsgWhatsappFormat,
     MsgEmailMissing, MsgEmailFormat]
  }

  /** The test a check applies to its field: present after trimming,
      selected (non-empty), or — only for a field that is not blank, the
      `else if` — ten digits or the e-mail pattern. */
  datatype Test = NonBlank | NonEmpty | TenDigitForm | EmailForm

  /** Whether `s` fails test `t`. */
  predicate FailsTest(t: Test, s: string)
  {
    match t
    case NonBlank => IsBlank(s)
    case NonEmpty => s == ""
    case TenDigitForm => !IsBlank(s) && !IsTenDigits(s)
    case EmailForm => !IsBlank(s) && !EmailMatches(s)
  }

  /** The field check `i` of the fourteen looks at. */
  function CheckField(i: nat, data: StudentFormData): string
  {
    if i == 0 then data.enrollmentNo
    else if i == 1 then data.name
    else if i == 2 then data.fatherName
    else if i == 3 then data.motherName
    else if i == 4 then data.programme
    else if i == 5 then data.session
    else if i == 6 then data.year
    else if i == 7 then data.photoUrl
    else if i == 8 || i == 9 then data.mobile
    else if i == 10 || i == 11 then data.whatsapp
    else data.email
  }

  /** The test check `i` applies. */
  function CheckTest(i: nat): Test
  {
    if i < 4 || i == 8 || i == 10 || i == 12 then NonBlank
    else if i < 8 then NonEmpty
    else if i == 9 || i == 11 then TenDigitForm
    else EmailForm
  }

  /** Check `i` of the fourteen, in the order the validator makes them;
      when it fails, message `i` of the catalogue is appended. */
  predicate Fails(i: nat, data: StudentFormData)
  {
    FailsTest(CheckTest(i), CheckField(i, data))
  }

  /** The outcomes of the fourteen checks, in order. */
  function Checks(data: StudentFormData): (r: seq<bool>)
    ensures |r| == 14
  {
    seq(14, i requires 0 <= i < 14 => Fails(i, data))
  }

  /** The messages of the failed checks, in check order. */
  function Picks(flags: seq<bool>, msgs: seq<string>): seq<string>
    requires |flags| == |msgs|
  {
    if flags == [] then [] else (if flags[0] then [msgs[0]] else []) + Picks(flags[1..], msgs[1..])
  }

  /** `validateBasicInfo(data)`. */
  function ValidateBasicInfo(data: StudentFormData): seq<string>
  {
    Picks(Checks(data), Catalogue())
  }

  // ---------------------------------------------------------------------
  // Picking messages by flags
  // ---------------------------------------------------------------------

  function CountTrue(flags: seq<bool>): nat
  {
    if flags == [] then 0 else (if flags[0] then 1 else 0) + CountTrue(flags[1..])
  }

  /** The picked messages keep the order of the catalogue, one per raised flag. */
  lemma {:induction false} PicksOrdered(flags: seq<bool>, msgs: seq<string>)
    requires |flags| == |msgs|
    ensures IsSubseq(Picks(flags, msgs), msgs)
    ensures |Picks(flags, msgs)| == CountTrue(flags)
  {
    if flags != [] {
      PicksOrdered(flags[1..], msgs[1..]);
      var rest := Picks(flags[1..], msgs[1..]);
      if flags[0] {
        assert ([msgs[0]] + rest)[1..] == rest;
      } else {
        assert Picks(flags, msgs) == rest;
      }
    }
  }

  /** With distinct messages, message i is picked exactly when flag i is raised. */
  lemma {:induction false} PicksMember(flags: seq<bool>, msgs: seq<string>, i: nat)
    requires |flags| == |msgs| && i < |msgs|
    requires forall a, b :: 0 <= a < b < |msgs| ==> msgs[a] != msgs[b]
    ensures msgs[i] in Picks(flags, msgs) <==> flags[i]
  {
    PicksFrom(flags, msgs);
    if i > 0 {
      PicksMember(flags[1..], msgs[1..], i - 1);
    }
  }

  /** Every picked message is one whose flag is raised. */
  lemma {:induction false} PicksFrom(flags: seq<bool>, msgs: seq<string>)
    requires |flags| == |msgs|
    ensures forall m :: m in Picks(flags, msgs) ==> exists i :: 0 <= i < |msgs| && msgs[i] == m && flags[i]
  {
    if flags != [] {
      PicksFrom(flags[1..], msgs[1..]);
      forall m | m in Picks(flags, msgs)
        ensures exists i :: 0 <= i < |msgs| && msgs[i] == m && flags[i]
      {
        if flags[0] && m == msgs[0] {
          assert msgs[0] == m && flags[0];
        } else {
          assert m in Picks(flags[1..], msgs[1..]);
          var j :| 0 <= j < |msgs[1..]| && msgs[1..][j] == m && flags[1..][j];
          assert msgs[j + 1] == m && flags[j + 1];
        }
      }
    }
  }

  /** Nothing is picked exactly when no flag is raised. */
  lemma {:induction false} PicksEmpty(flags: seq<bool>, msgs: seq<string>)
    requires |flags| == |msgs|
    ensures Picks(flags, msgs) == [] <==> forall i :: 0 <= i < |flags| ==> !flags[i]
  {
    if flags != [] {
      PicksEmpty(flags[1..], msgs[1..]);
      assert forall i :: 1 <= i < |flags| ==> flags[i] == flags[1..][i - 1];
    }
  }

  lemma CatalogueDistinct()
    ensures |Catalogue()| == 14
    ensures forall a, b :: 0 <= a < b < 14 ==> Catalogue()[a] != Catalogue()[b]
  {
    var c := Catalogue();
    forall a, b | 0 <= a < b < 14 ensures c[a] != c[b] {
      assert |c[a]| != |c[b]| || c[a][0] != c[b][0];
    }
  }

  // ---------------------------------------------------------------------
  // Properties of the validator
  // ---------------------------------------------------------------------

  /** The conditions under which the section is accepted. */
  ghost predicate AllChecksPass(data: StudentFormData)
  {
    && !AllWhitespace(data.enrollmentNo) && !AllWhitespace(data.name)
    && !AllWhitespace(data.fatherName) && !AllWhitespace(data.motherName)
    && data.programme != "" && data.session != "" && data.year != "" && data.photoUrl != ""
    && IsTenDigits(data.mobile) && IsTenDigits(data.whatsapp)
    && EmailPattern(data.email)
  }

  lemma TenDigitsNotBlank(s: string)
    requires IsTenDigits(s)
    ensures !AllWhitespace(s)
  {
    assert !IsWhitespace(s[0]);
  }

  lemma EmailNotBlank(s: string)
    requires EmailPattern(s)
    ensures !AllWhitespace(s)
  {
    assert !IsWsOrAt(s[0]);
  }

  /** Message `i` of the catalogue is reported exactly when check `i` fails. */
  lemma MessageIffFails(data: StudentFormData, i: nat)
    requires i < 14
    ensures Catalogue()[i] in ValidateBasicInfo(data) <==> Fails(i, data)
  {
    CatalogueDistinct();
    PicksMember(Checks(data), Catalogue(), i);
  }

  /** Each of the four name fields reports its message exactly when it is
      empty or whitespace only. */
  lemma RequiredTextMessages(data: StudentFormData)
    ensures MsgEnrollment in ValidateBasicInfo(data) <==> AllWhitespace(data.enrollmentNo)
    ensures MsgName in ValidateBasicInfo(data) <==> AllWhitespace(data.name)
    ensures MsgFather in ValidateBasicInfo(data) <==> AllWhitespace(data.fatherName)
    ensures MsgMother in ValidateBasicInfo(data) <==> AllWhitespace(data.motherName)
  {
    NameMessage(data, 0);
    NameMessage(data, 1);
    NameMessage(data, 2);
    NameMessage(data, 3);
  }

  lemma NameMessage(data: StudentFormData, i: nat)
    requires i < 4
    ensures Catalogue()[i] in ValidateBasicInfo(data) <==> AllWhitespace(CheckField(i, data))
  {
    MessageIffFails(data, i);
    NonBlankCheck(i, data);
  }

  /** A value is blank exactly when it is white space only. */
  lemma NonBlankMeaning(s: string)
    ensures FailsTest(NonBlank, s) <==> AllWhitespace(s)
  {
    BlankIffAllWhitespace(s);
  }

  /** The digit test fails only on a non-blank value that is not ten
      ASCII digits. */
  lemma TenDigitMeaning(s: string)
    ensures FailsTest(TenDigitForm, s) <==> !AllWhitespace(s) && !IsTenDigits(s)
  {
    BlankIffAllWhitespace(s);
  }

  /** The e-mail test fails only on a non-blank value outside the e-mail
      pattern. */
  lemma EmailMeaning(s: string)
    ensures FailsTest(EmailForm, s) <==> !AllWhitespace(s) && !EmailPattern(s)
  {
    BlankIffAllWhitespace(s);
    EmailMatchesPattern(s);
  }

  /** A check of the four name fields fails exactly when its field is
      white space only. */
  lemma NonBlankCheck(i: nat, data: StudentFormData)
    requires i < 4
    ensures Fails(i, data) <==> AllWhitespace(CheckField(i, data))
  {
    NonBlankMeaning(CheckField(i, data));
  }

  /** Each of the three selections and the photo reports its message exactly
      when it is empty; no trimming is applied to them. */
  lemma SelectionMessages(data: StudentFormData)
    ensures MsgProgramme in ValidateBasicInfo(data) <==> data.programme == ""
    ensures MsgSession in ValidateBasicInfo(data) <==> data.session == ""
    ensures MsgYear in ValidateBasicInfo(data) <==> data.year == ""
    ensures MsgPhoto in ValidateBasicInfo(data) <==> data.photoUrl == ""
  {
    assert Catalogue()[4] == MsgProgramme && CheckField(4, data) == data.programme;
    assert Catalogue()[5] == MsgSession && CheckField(5, data) == data.session;
    assert Catalogue()[6] == MsgYear && CheckField(6, data) == data.year;
    assert Catalogue()[7] == MsgPhoto && CheckField(7, data) == data.photoUrl;
    SelectionMessage(data, 4);
    SelectionMessage(data, 5);
    SelectionMessage(data, 6);
    SelectionMessage(data, 7);
  }

  lemma SelectionMessage(data: StudentFormData, i: nat)
    requires 4 <= i < 8
    ensures Catalogue()[i] in ValidateBasicInfo(data) <==> CheckField(i, data) == ""
  {
    MessageIffFails(data, i);
    assert CheckTest(i) == NonEmpty;
  }

  /** What the two checks of the contact number test. */
  lemma MobileChecks(data: StudentFormData)
    ensures Fails(8, data) <==> AllWhitespace(data.mobile)
    ensures Fails(9, data) <==> !AllWhitespace(data.mobile) && !IsTenDigits(data.mobile)
  {
    assert CheckTest(8) == NonBlank && CheckField(8, data) == data.mobile;
    assert CheckTest(9) == TenDigitForm && CheckField(9, data) == data.mobile;
    assert Fails(8, data) == FailsTest(NonBlank, data.mobile);
    assert Fails(9, data) == FailsTest(TenDigitForm, data.mobile);
    NonBlankMeaning(data.mobile);
    TenDigitMeaning(data.mobile);
  }

  /** What the two checks of the WhatsApp number test. */
  lemma WhatsappChecks(data: StudentFormData)
    ensures Fails(10, data) <==> AllWhitespace(data.whatsapp)
    ensures Fails(11, data) <==> !AllWhitespace(data.whatsapp) && !IsTenDigits(data.whatsapp)
  {
    assert CheckTest(10) == NonBlank && CheckField(10, data) == data.whatsapp;
    assert CheckTest(11) == TenDigitForm && CheckField(11, data) == data.whatsapp;
    assert Fails(10, data) == FailsTest(NonBlank, data.whatsapp);
    assert Fails(11, data) == FailsTest(TenDigitForm, data.whatsapp);
    NonBlankMeaning(data.whatsapp);
    TenDigitMeaning(data.whatsapp);
  }

  /** What the two checks of the e-mail test. */
  lemma EmailChecks(data: StudentFormData)
    ensures Fails(12, data) <==> AllWhitespace(data.email)
    ensures Fails(13, data) <==> !AllWhitespace(data.email) && !EmailPattern(data.email)
  {
    assert CheckTest(12) == NonBlank && CheckField(12, data) == data.email;
    assert CheckTest(13) == EmailForm && CheckField(13, data) == data.email;
    assert Fails(12, data) == FailsTest(NonBlank, data.email);
    assert Fails(13, data) == FailsTest(EmailForm, data.email);
    NonBlankMeaning(data.email);
    EmailMeaning(data.email);
  }

  /** A blank contact number reports only the "mandatory" message; a
      non-blank one reports the format message exactly when its untrimmed
      value is not ten ASCII digits. */
  lemma MobileMessages(data: StudentFormData)
    ensures MsgMobileMissing in ValidateBasicInfo(data) <==> AllWhitespace(data.mobile)
    ensures MsgMobileFormat in ValidateBasicInfo(data) <==> !AllWhitespace(data.mobile) && !IsTenDigits(data.mobile)
  {
    MessageIffFails(data, 8);
    MessageIffFails(data, 9);
    MobileChecks(data);
  }

  /** The same two messages for the WhatsApp number. */
  lemma WhatsappMessages(data: StudentFormData)
    ensures MsgWhatsappMissing in ValidateBasicInfo(data) <==> AllWhitespace(data.whatsapp)
    ensures MsgWhatsappFormat in ValidateBasicInfo(data) <==> !AllWhitespace(data.whatsapp) && !IsTenDigits(data.whatsapp)
  {
    MessageIffFails(data, 10);
    MessageIffFails(data, 11);
    WhatsappChecks(data);
  }

  /** A blank e-mail reports only the "mandatory" message; a non-blank one
      reports the format message exactly when it is outside the e-mail
      pattern. */
  lemma EmailMessages(data: StudentFormData)
    ensures MsgEmailMissing in ValidateBasicInfo(data) <==> AllWhitespace(data.email)
    ensures MsgEmailFormat in ValidateBasicInfo(data) <==> !AllWhitespace(data.email) && !EmailPattern(data.email)
  {
    MessageIffFails(data, 12);
    MessageIffFails(data, 13);
    EmailChecks(data);
  }

  /** The two messages of one phone or e-mail field never appear together. */
  lemma NeverBothMessages(data: StudentFormData)
    ensures !(MsgMobileMissing in ValidateBasicInfo(data) && MsgMobileFormat in ValidateBasicInfo(data))
    ensures !(MsgWhatsappMissing in ValidateBasicInfo(data) && MsgWhatsappFormat in ValidateBasicInfo(data))
    ensures !(MsgEmailMissing in ValidateBasicInfo(data) && MsgEmailFormat in ValidateBasicInfo(data))
  {
    MobileMessages(data);
    WhatsappMessages(data);
    EmailMessages(data);
  }

  /** The result is empty exactly when every check passes. */
  lemma ValidIffAllChecksPass(data: StudentFormData)
    ensures ValidateBasicInfo(data) == [] <==> AllChecksPass(data)
  {
    var v := ValidateBasicInfo(data);
    RequiredTextMessages(data);
    SelectionMessages(data);
    MobileMessages(data);
    WhatsappMessages(data);
    EmailMessages(data);
    if v != [] {
      PicksFrom(Checks(data), Catalogue());
      assert v[0] in v;
      var i :| 0 <= i < 14 && Catalogue()[i] == v[0];
      assert Catalogue()[i] in v;
      if IsTenDigits(data.mobile) { TenDigitsNotBlank(data.mobile); }
      if IsTenDigits(data.whatsapp) { TenDigitsNotBlank(data.whatsapp); }
      if EmailPattern(data.email) { EmailNotBlank(data.email); }
    }
  }

  /** At most eleven messages, in the fixed check order: the result is a
      subsequence of the catalogue of all fourteen messages. */
  lemma ValidateOrdered(data: StudentFormData)
    ensures |ValidateBasicInfo(data)| <= 11
    ensures IsSubseq(ValidateBasicInfo(data), Catalogue())
  {
    var f := Checks(data);
    PicksOrdered(f, Catalogue());
    MobileChecks(data);
    WhatsappChecks(data);
    EmailChecks(data);
    CountAtMost(f);
  }

  lemma {:induction false} CountAppend(a: seq<bool>, b: seq<bool>)
    ensures CountTrue(a + b) == CountTrue(a) + CountTrue(b)
  {
    if a != [] {
      assert (a + b)[0] == a[0];
      assert (a + b)[1..] == a[1..] + b;
      CountAppend(a[1..], b);
    } else {
      assert a + b == b;
    }
  }

  lemma {:induction false} CountBound(a: seq<bool>)
    ensures CountTrue(a) <= |a|
  {
    if a != [] {
      CountBound(a[1..]);
    }
  }

  /** The paired checks 8/9, 10/11 and 12/13 never both fail. */
  lemma CountAtMost(f: seq<bool>)
    requires |f| == 14 && !(f[8] && f[9]) && !(f[10] && f[11]) && !(f[12] && f[13])
    ensures CountTrue(f) <= 11
  {
    assert f == f[..8] + f[8..10] + f[10..12] + f[12..];
    CountAppend(f[..8] + f[8..10] + f[10..12], f[12..]);
    CountAppend(f[..8] + f[8..10], f[10..12]);
    CountAppend(f[..8], f[8..10]);
    CountBound(f[..8]);
    CountPair(f[8..10]);
    CountPair(f[10..12]);
    CountPair(f[12..]);
  }

  lemma CountPair(a: seq<bool>)
    requires |a| == 2 && !(a[0] && a[1])
    ensures CountTrue(a) <= 1
  {
    assert a[1..][0] == a[1];
    assert CountTrue(a[1..][1..]) == 0;
  }

  /** A value with a leading space is not blank but fails the digit test,
      because the test sees the untrimmed value. */
  lemma LeadingSpaceFailsDigitsOnly(data: StudentFormData)
    requires data.mobile == " 1234567890"
    ensures MsgMobileFormat in ValidateBasicInfo(data)
    ensures MsgMobileMissing !in ValidateBasicInfo(data)
  {
    MobileMessages(data);
    assert !IsWhitespace(data.mobile[1]);
  }
}
