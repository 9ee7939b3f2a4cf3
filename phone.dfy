/** Kyrgyz phone numbers as typed into the booking form: the validation
    pattern `^(\+?996)?[0-9\s]{9,12}$`, the "996 XXX XXX XXX" display format,
    and whitespace stripping. */
module Phone {
  import opened TimeText

  /** The characters JavaScript's `\s` matches: the ASCII white space, the
      no-break space, the Unicode space separators, the line and paragraph
      separators and the byte-order mark. */
  predicate IsJsSpace(c: char) {
    || c == '\t' || c == '\n' || c == '\U{000B}' || c == '\U{000C}' || c == '\r' || c == ' '
    || c == '\U{00A0}' || c == '\U{1680}' || ('\U{2000}' <= c <= '\U{200A}')
    || c == '\U{2028}' || c == '\U{2029}' || c == '\U{202F}' || c == '\U{205F}'
    || c == '\U{3000}' || c == '\U{FEFF}'
  }

  // ---------------------------------------------------------------------------
  // cleanPhone

  /** `phone.replace(/\s/g, "")`: the input with every white-space character
      removed. */
  function CleanPhone(phone: string): (r: string)
    ensures |r| <= |phone|
    ensures forall c :: c in r <==> c in phone && !IsJsSpace(c)
    decreases |phone|
  {
    if phone == [] then []
    else (if IsJsSpace(phone[0]) then [] else [phone[0]]) + CleanPhone(phone[1..])
  }

  /** Removal works piece by piece, so the kept characters stay in order. */
  lemma {:induction false} CleanPhoneConcat(a: string, b: string)
    ensures CleanPhone(a + b) == CleanPhone(a) + CleanPhone(b)
    decreases |a|
  {
    if a == [] {
      assert a + b == b;
    } else {
      assert (a + b)[1..] == a[1..] + b;
      CleanPhoneConcat(a[1..], b);
    }
  }

  /** Text without white space is left as it is. */
  lemma {:induction false} CleanPhoneKeepsSpaceFree(phone: string)
    requires forall i :: 0 <= i < |phone| ==> !IsJsSpace(phone[i])
    ensures CleanPhone(phone) == phone
    decreases |phone|
  {
    if phone != [] {
      CleanPhoneKeepsSpaceFree(phone[1..]);
    }
  }

  /** Cleaning twice is cleaning once. */
  lemma CleanPhoneIdempotent(phone: string)
    ensures CleanPhone(CleanPhone(phone)) == CleanPhone(phone)
  {
    var r := CleanPhone(phone);
    forall i | 0 <= i < |r|
      ensures !IsJsSpace(r[i])
    {
      assert r[i] in r;
    }
    CleanPhoneKeepsSpaceFree(r);
  }

  // ---------------------------------------------------------------------------
  // formatPhone

  /** `phone.replace(/\D/g, "")`: the ASCII digits of the input, in order. */
  function DigitsOf(phone: string): (r: string)
    ensures |r| <= |phone| && AllDigits(r)
    ensures forall c :: c in r <==> c in phone && IsDigit(c)
    decreases |phone|
  {
    if phone == [] then []
    else (if IsDigit(phone[0]) then [phone[0]] else []) + DigitsOf(phone[1..])
  }

  lemma {:induction false} DigitsOfConcat(a: string, b: string)
    ensures DigitsOf(a + b) == DigitsOf(a) + DigitsOf(b)
    decreases |a|
  {
    if a == [] {
      assert a + b == b;
    } else {
      assert (a + b)[1..] == a[1..] + b;
      DigitsOfConcat(a[1..], b);
    }
  }

  lemma {:induction false} DigitsOfDigits(s: string)
    requires AllDigits(s)
    ensures DigitsOf(s) == s
    decreases |s|
  {
    if s != [] {
      DigitsOfDigits(s[1..]);
    }
  }

  predicate StartsWith996(s: string) {
    |s| >= 3 && s[..3] == "996"
  }

  /** The first twelve digits in four groups of three, then the rest. */
  function Grouped(digits: string): string
    requires |digits| >= 12
  {
    digits[..3] + " " + digits[3..6] + " " + digits[6..9] + " " + digits[9..12] + digits[12..]
  }

  /** `formatPhone`: a number whose digits start with 996 is shown as its
      digits, the first twelve grouped by three when there are that many;
      any other input is returned as typed. */
  function FormatPhone(phone: string): (r: string)
    ensures !StartsWith996(DigitsOf(phone)) ==> r == phone
    ensures StartsWith996(DigitsOf(phone)) && |DigitsOf(phone)| < 12 ==> r == DigitsOf(phone)
    ensures StartsWith996(DigitsOf(phone)) && |DigitsOf(phone)| >= 12 ==>
              |r| == |DigitsOf(phone)| + 3 && r[3] == ' ' && r[7] == ' ' && r[11] == ' '
  {
    var cleaned := DigitsOf(phone);
    if StartsWith996(cleaned) then
      if |cleaned| >= 12 then Grouped(cleaned) else cleaned
    else phone
  }

  /** A space between two pieces drops out of the digits. */
  lemma SpaceThenDigits(x: string, y: string)
    requires AllDigits(y)
    ensures DigitsOf(x + " " + y) == DigitsOf(x) + y
  {
    var xs := x + " ";
    DigitsOfConcat(xs, y);
    DigitsOfConcat(x, " ");
    DigitsOfDigits(y);
    NoDigitsInSpace();
  }

  lemma NoDigitsInSpace()
    ensures DigitsOf(" ") == []
  {
    assert " "[1..] == [];
  }

  lemma DigitsSlice(s: string, i: nat, j: nat)
    requires AllDigits(s) && i <= j <= |s|
    ensures AllDigits(s[i..j])
  {
    forall k | 0 <= k < j - i
      ensures IsDigit(s[i..j][k])
    {
      assert s[i..j][k] == s[i + k];
    }
  }

  /** Spaces between runs of digits drop out of the digits. */
  lemma SpacedRunsDigits(a: string, b: string, c: string, d: string, e: string)
    requires AllDigits(a) && AllDigits(b) && AllDigits(c) && AllDigits(d) && AllDigits(e)
    ensures DigitsOf(a + " " + b + " " + c + " " + d + e) == a + b + c + d + e
  {
    var s1 := a + " " + b;
    var s2 := s1 + " " + c;
    var s3 := s2 + " " + d;
    DigitsOfDigits(a);
    SpaceThenDigits(a, b);
    SpaceThenDigits(s1, c);
    SpaceThenDigits(s2, d);
    DigitsOfConcat(s3, e);
    DigitsOfDigits(e);
  }

  /** Grouping only inserts spaces: the digits come back unchanged. */
  lemma GroupedDigits(digits: string)
    requires |digits| >= 12 && AllDigits(digits)
    ensures DigitsOf(Grouped(digits)) == digits
  {
    DigitsSlice(digits, 0, 3);
    DigitsSlice(digits, 3, 6);
    DigitsSlice(digits, 6, 9);
    DigitsSlice(digits, 9, 12);
    DigitsSlice(digits, 12, |digits|);
    SpacedRunsDigits(digits[..3], digits[3..6], digits[6..9], digits[9..12], digits[12..]);
    assert digits[..6] == digits[..3] + digits[3..6];
    assert digits[..9] == digits[..6] + digits[6..9];
    assert digits[..12] == digits[..9] + digits[9..12];
    assert digits == digits[..12] + digits[12..];
  }

  /** Formatting keeps a number's digits. */
  lemma FormatPhoneKeepsDigits(phone: string)
    ensures DigitsOf(FormatPhone(phone)) == DigitsOf(phone)
  {
    var cleaned := DigitsOf(phone);
    if StartsWith996(cleaned) {
      if |cleaned| >= 12 {
        GroupedDigits(cleaned);
      } else {
        DigitsOfDigits(cleaned);
      }
    }
  }

  /** Formatting an already formatted number changes nothing. */
  lemma FormatPhoneIdempotent(phone: string)
    ensures FormatPhone(FormatPhone(phone)) == FormatPhone(phone)
  {
    FormatPhoneKeepsDigits(phone);
  }

  // ---------------------------------------------------------------------------
  // validatePhone

  /** `[0-9\s]{9,12}` matching a whole string. */
  predicate PhoneBody(s: string) {
    9 <= |s| <= 12 && forall i :: 0 <= i < |s| ==> IsDigit(s[i]) || IsJsSpace(s[i])
  }

  /** `validatePhone`: the pattern matches with the optional prefix absent,
      as "996" or as "+996"; the regex engine tries every way. */
  predicate ValidatePhone(phone: string) {
    || PhoneBody(phone)
    || (|phone| >= 3 && phone[..3] == "996" && PhoneBody(phone[3..]))
    || (|phone| >= 4 && phone[..4] == "+996" && PhoneBody(phone[4..]))
  }

  /** Nine to twelve digits pass. */
  lemma PlainDigitsValid(phone: string)
    requires AllDigits(phone) && 9 <= |phone| <= 12
    ensures ValidatePhone(phone)
  {
  }

  /** Anything shorter than 9 or longer than 16 characters fails. */
  lemma LengthBounds(phone: string)
    requires |phone| < 9 || |phone| > 16
    ensures !ValidatePhone(phone)
  {
  }

  /** Every character of a number that passes is a digit, white space, or
      the '+' at its very start; so any letter makes a number fail. */
  lemma ValidCharacters(phone: string, k: nat)
    requires ValidatePhone(phone) && k < |phone|
    ensures IsDigit(phone[k]) || IsJsSpace(phone[k]) || (k == 0 && phone[k] == '+')
  {
    if PhoneBody(phone) {
    } else if |phone| >= 3 && phone[..3] == "996" && PhoneBody(phone[3..]) {
      if k < 3 {
        assert phone[k] == phone[..3][k];
      } else {
        assert phone[k] == phone[3..][k - 3];
      }
    } else {
      if k < 4 {
        assert phone[k] == phone[..4][k];
      } else {
        assert phone[k] == phone[4..][k - 4];
      }
    }
  }

  /** The display form of a full number, "996 XXX XXX XXX", itself passes
      validation. */
  lemma FormattedNumberValid(phone: string)
    requires StartsWith996(DigitsOf(phone)) && |DigitsOf(phone)| == 12
    ensures ValidatePhone(FormatPhone(phone))
  {
    var d := DigitsOf(phone);
    var r := FormatPhone(phone);
    assert r == Grouped(d);
    assert r[..3] == d[..3] == "996";
    var body := r[3..];
    assert |body| == 12;
    forall i | 0 <= i < 12
      ensures IsDigit(body[i]) || IsJsSpace(body[i])
    {
      assert body[i] == r[i + 3];
      if i + 3 < 15 && i + 3 != 3 && i + 3 != 7 && i + 3 != 11 {
        assert r[i + 3] in d;
      }
    }
  }
}
