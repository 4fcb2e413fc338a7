/** Voucher codes, and the router usernames built from them. */
module Codes {
  import opened Wrappers

  const ALPHABET := "234567ABCDEFGHJKLMNPQRSTUVWXYZ"

  // ---- Text ----

  /** Upper case of one rune, as far as it can end in the alphabet: the long s and the dotless i become ASCII. */
  function Upper(c: char): char {
    if 'a' <= c <= 'z' then (c as int - 32) as char
    else if c == '\U{017F}' then 'S'
    else if c == '\U{0131}' then 'I'
    else c
  }

  /** Lower case of one rune, for ASCII and for the runes that become ASCII. */
  function Lower(c: char): char {
    if 'A' <= c <= 'Z' then (c as int + 32) as char
    else if c == '\U{212A}' then 'k'
    else if c == '\U{0130}' then 'i'
    else c
  }

  function ToUpper(s: string): (r: string)
    ensures |r| == |s| && forall i :: 0 <= i < |s| ==> r[i] == Upper(s[i])
  {
    seq(|s|, i requires 0 <= i < |s| => Upper(s[i]))
  }

  function ToLower(s: string): (r: string)
    ensures |r| == |s| && forall i :: 0 <= i < |s| ==> r[i] == Lower(s[i])
  {
    seq(|s|, i requires 0 <= i < |s| => Lower(s[i]))
  }

  /** `s` without the characters of `gone`. */
  function Without(s: string, gone: string): string {
    if s == "" then ""
    else if s[0] in gone then Without(s[1..], gone)
    else [s[0]] + Without(s[1..], gone)
  }

  lemma {:induction false} WithoutAppend(a: string, b: string, gone: string)
    ensures Without(a + b, gone) == Without(a, gone) + Without(b, gone)
  {
    if a == "" {
      assert a + b == b;
    } else {
      assert (a + b)[1..] == a[1..] + b;
      WithoutAppend(a[1..], b, gone);
    }
  }

  lemma {:induction false} WithoutNone(s: string, gone: string)
    requires forall i :: 0 <= i < |s| ==> s[i] !in gone
    ensures Without(s, gone) == s
  {
    if s != "" {
      WithoutNone(s[1..], gone);
      assert [s[0]] + s[1..] == s;
    }
  }

  // ---- Voucher codes ----

  predicate IsCode(s: string) {
    |s| == 8 && forall i :: 0 <= i < 8 ==> s[i] in ALPHABET
  }

  datatype CodeError = InvalidCode

  /** Strips dashes and spaces and upper-cases; anything but eight characters of the alphabet is refused. */
  function NormalizeCode(raw: string): Result<string, CodeError> {
    var s := ToUpper(Without(raw, "- "));
    if |s| != 8 then Err(InvalidCode)
    else if exists i :: 0 <= i < |s| && s[i] !in ALPHABET then Err(InvalidCode)
    else Ok(s)
  }

  function DisplayCode(code: string): string {
    if |code| == 8 then code[..4] + "-" + code[4..] else code
  }

  lemma AlphabetRange(c: char)
    requires c in ALPHABET
    ensures '2' <= c <= '7' || 'A' <= c <= 'Z'
  {
    var i :| 0 <= i < |ALPHABET| && ALPHABET[i] == c;
    assert i < 6 ==> '2' <= ALPHABET[i] <= '7';
    assert 6 <= i ==> 'A' <= ALPHABET[i] <= 'Z';
  }

  lemma PlainChars(c: char)
    requires '2' <= c <= '7' || 'A' <= c <= 'Z'
    ensures Upper(c) == c && Upper(Lower(c)) == c
    ensures Lower(c) != '-' && Lower(c) != ' ' && c != '-' && c != ' '
  {
  }

  lemma CodeIsPlain(c: string)
    requires IsCode(c)
    ensures Without(c, "- ") == c && Without(c, "-") == c && ToUpper(c) == c
    ensures Without(ToLower(c), "- ") == ToLower(c) && ToUpper(ToLower(c)) == c
  {
    hide Upper, Lower, Without;
    forall i | 0 <= i < 8
      ensures Upper(c[i]) == c[i] && Upper(Lower(c[i])) == c[i] && Lower(c[i]) !in "- " && c[i] !in "- "
    {
      PlainInCode(c[i]);
    }
    WithoutNone(c, "- ");
    WithoutNone(c, "-");
    WithoutNone(ToLower(c), "- ");
    assert ToUpper(c) == c;
    assert ToUpper(ToLower(c)) == c;
  }

  lemma PlainInCode(c: char)
    requires c in ALPHABET
    ensures Upper(c) == c && Upper(Lower(c)) == c && Lower(c) !in "- " && c !in "- "
  {
    AlphabetRange(c);
    PlainChars(c);
  }

  /** A code comes back from its displayed form, whatever case it is typed in and wherever it is broken up. */
  lemma NormalizeInvertsDisplay(c: string)
    requires IsCode(c)
    ensures NormalizeCode(DisplayCode(c)) == Ok(c) && NormalizeCode(c) == Ok(c)
    ensures NormalizeCode(ToLower(c)) == Ok(c)
  {
    CodeIsPlain(c);
    SeparatorIgnored(c[..4], "-", c[4..]);
    assert c[..4] + c[4..] == c;
  }

  /** Dashes and spaces anywhere make no difference, valid or not. */
  lemma SeparatorIgnored(a: string, separators: string, b: string)
    requires forall i :: 0 <= i < |separators| ==> separators[i] in "- "
    ensures NormalizeCode(a + separators + b) == NormalizeCode(a + b)
  {
    WithoutAll(separators, "- ");
    WithoutAppend(a + separators, b, "- ");
    WithoutAppend(a, separators, "- ");
    WithoutAppend(a, b, "- ");
    assert Without(a, "- ") + "" == Without(a, "- ");
  }

  lemma {:induction false} WithoutAll(s: string, gone: string)
    requires forall i :: 0 <= i < |s| ==> s[i] in gone
    ensures Without(s, gone) == ""
  {
    if s != "" {
      WithoutAll(s[1..], gone);
    }
  }

  /** A normalised code is a code, and normalising it again changes nothing. */
  lemma NormalizeIdempotent(raw: string)
    requires NormalizeCode(raw).Ok?
    ensures IsCode(NormalizeCode(raw).value) && NormalizeCode(NormalizeCode(raw).value) == NormalizeCode(raw)
  {
    var s := ToUpper(Without(raw, "- "));
    assert forall i :: 0 <= i < 8 ==> s[i] in ALPHABET;
    NormalizeInvertsDisplay(s);
  }

  // ---- Generated codes and their lookup ----

  /** GenerateCode, from the eight alphabet positions the random source yields. */
  function GenerateCode(indices: seq<nat>): (r: string)
    requires |indices| == 8 && forall i :: 0 <= i < 8 ==> indices[i] < |ALPHABET|
    ensures exists c :: IsCode(c) && r == DisplayCode(c)
  {
    var s := seq(8, i requires 0 <= i < 8 => ALPHABET[indices[i]]);
    assert IsCode(s) && DisplayCode(s) == s[..4] + "-" + s[4..];
    s[..4] + "-" + s[4..]
  }

  /** The alphabet: six digits and the capital letters but I and O. */
  lemma AlphabetIs(c: char)
    ensures c in ALPHABET <==> '2' <= c <= '7' || ('A' <= c <= 'Z' && c != 'I' && c != 'O')
  {
    if '2' <= c <= '7' {
      AlphabetAt(c as int - '2' as int);
    } else if 'A' <= c <= 'H' {
      AlphabetAt(6 + (c as int - 'A' as int));
    } else if 'J' <= c <= 'N' {
      AlphabetAt(14 + (c as int - 'J' as int));
    } else if 'P' <= c <= 'Z' {
      AlphabetAt(19 + (c as int - 'P' as int));
    } else if c in ALPHABET {
      var i :| 0 <= i < |ALPHABET| && ALPHABET[i] == c;
      AlphabetAt(i);
    }
  }

  /** What typed characters upper-case into the alphabet: its own, small letters, and the long s. */
  lemma UpperInAlphabet(c: char)
    ensures Upper(c) in ALPHABET <==>
            || '2' <= c <= '7' || ('A' <= c <= 'Z' && c != 'I' && c != 'O')
            || ('a' <= c <= 'z' && c != 'i' && c != 'o') || c == '\U{017F}'
  {
    AlphabetIs(Upper(c));
    hide *;
    UppersInRange(c);
  }

  lemma UppersInRange(c: char)
    ensures ('2' <= Upper(c) <= '7' || ('A' <= Upper(c) <= 'Z' && Upper(c) != 'I' && Upper(c) != 'O')) <==>
            || '2' <= c <= '7' || ('A' <= c <= 'Z' && c != 'I' && c != 'O')
            || ('a' <= c <= 'z' && c != 'i' && c != 'o') || c == '\U{017F}'
  {
  }

  /** Its characters in order. */
  lemma AlphabetAt(i: nat)
    requires i < 30
    ensures |ALPHABET| == 30
    ensures ALPHABET[i] as int == if i < 6 then '2' as int + i else if i < 14 then 'A' as int + i - 6
                                  else if i < 19 then 'J' as int + i - 14 else 'P' as int + i - 19
  {
  }

  /** The random source decides each character, and a generated string is nine long with its dash in the middle. */
  lemma GeneratedFrom(indices: seq<nat>, i: nat)
    requires |indices| == 8 && (forall k :: 0 <= k < 8 ==> indices[k] < |ALPHABET|) && i < 8
    ensures |GenerateCode(indices)| == 9 && GenerateCode(indices)[4] == '-'
    ensures GenerateCode(indices)[if i < 4 then i else i + 1] == ALPHABET[indices[i]]
    ensures NormalizeCode(GenerateCode(indices)).Ok?
    ensures NormalizeCode(GenerateCode(indices)).value[i] == ALPHABET[indices[i]]
  {
    var c := seq(8, k requires 0 <= k < 8 => ALPHABET[indices[k]]);
    assert IsCode(c) && GenerateCode(indices) == DisplayCode(c);
    NormalizeInvertsDisplay(c);
    hide Without, ToUpper;
  }

  /** The WHERE clause of VoucherByCode. */
  predicate MatchesStored(stored: string, code: string) {
    ToUpper(Without(stored, "-")) == ToUpper(code)
  }

  /** Looking up a typed code finds exactly the voucher stored in that code's displayed form. */
  lemma LookupFindsOnlyItsCode(c: string, raw: string)
    requires IsCode(c) && NormalizeCode(raw).Ok?
    ensures MatchesStored(DisplayCode(c), NormalizeCode(raw).value) <==> NormalizeCode(raw).value == c
  {
    NormalizeIdempotent(raw);
    CodeIsPlain(NormalizeCode(raw).value);
    DisplayStrips(c);
  }

  lemma DisplayStrips(c: string)
    requires IsCode(c)
    ensures Without(DisplayCode(c), "-") == c && ToUpper(c) == c && Without(c, "-") == c
  {
    CodeIsPlain(c);
    WithoutAppend(c[..4] + "-", c[4..], "-");
    WithoutAppend(c[..4], "-", "-");
    WithoutAppend(c[..4], c[4..], "-");
    assert c[..4] + c[4..] == c;
    assert Without("-", "-") == "" by {
      WithoutAll("-", "-");
    }
    assert Without(c[..4], "-") + "" == Without(c[..4], "-");
  }

  /** First occurrences, in order. */
  function Distinct(codes: seq<string>): seq<string> {
    if codes == [] then []
    else
      var n := |codes| - 1;
      if codes[n] in codes[..n] then Distinct(codes[..n]) else Distinct(codes[..n]) + [codes[n]]
  }

  lemma {:induction false} DistinctIsDistinct(codes: seq<string>)
    ensures forall i, j :: 0 <= i < j < |Distinct(codes)| ==> Distinct(codes)[i] != Distinct(codes)[j]
    ensures forall c :: c in Distinct(codes) <==> c in codes
  {
    if codes != [] {
      var n := |codes| - 1;
      DistinctIsDistinct(codes[..n]);
      assert codes == codes[..n] + [codes[n]];
    }
  }

  /** GenerateBatchCodes over the codes that the random source yields; it errs when the source does, after `drawn`. */
  method GenerateBatchCodes(count: nat, drawn: seq<string>) returns (r: Option<seq<string>>)
    ensures r.None? <==> |Distinct(drawn)| < count
    ensures r.Some? ==> |r.value| == count && r.value <= Distinct(drawn)
    ensures r.Some? ==> forall i, j :: 0 <= i < j < count ==> r.value[i] != r.value[j]
    ensures r.Some? ==> forall c :: c in r.value ==> c in drawn
  {
    var seen: set<string> := {};
    var out: seq<string> := [];
    var k := 0;
    while |out| < count
      invariant 0 <= k <= |drawn|
      invariant out == Distinct(drawn[..k]) && |out| <= count
      invariant forall c :: c in seen <==> c in drawn[..k]
      decreases |drawn| - k
    {
      if k == |drawn| {
        assert drawn[..k] == drawn;
        return None;
      }
      var code := drawn[k];
      assert drawn[..k + 1][..k] == drawn[..k] && drawn[..k + 1][k] == code;
      if code !in seen {
        seen := seen + {code};
        out := out + [code];
      }
      assert drawn[..k + 1] == drawn[..k] + [code];
      k := k + 1;
    }
    DistinctGrows(drawn, k);
    DistinctIsDistinct(drawn);
    assert forall i :: 0 <= i < count ==> out[i] == Distinct(drawn)[i] && Distinct(drawn)[i] in Distinct(drawn);
    return Some(out);
  }

  lemma {:induction false} DistinctGrows(codes: seq<string>, k: nat)
    requires k <= |codes|
    ensures Distinct(codes[..k]) <= Distinct(codes)
  {
    if k == |codes| {
      assert codes[..k] == codes;
    } else {
      var n := |codes| - 1;
      assert codes[..n][..k] == codes[..k];
      DistinctGrows(codes[..n], k);
    }
  }

  // ---- Decimal numbers ----

  const MIN_INT64 := -0x8000_0000_0000_0000
  const MAX_INT64 := 0x7FFF_FFFF_FFFF_FFFF

  function Digits(n: nat): (s: string)
    ensures s != "" && forall i :: 0 <= i < |s| ==> '0' <= s[i] <= '9'
  {
    var last := ('0' as int + n % 10) as char;
    if n < 10 then [last] else Digits(n / 10) + [last]
  }

  /** strconv.FormatInt(n, 10) */
  function FormatInt(n: int): string {
    if n < 0 then "-" + Digits(-n) else Digits(n)
  }

  /** The value of a nonempty string of digits. */
  function Value(s: string): Option<nat>
    decreases |s|
  {
    if s == "" then None
    else
      var n := |s| - 1;
      if !('0' <= s[n] <= '9') then None
      else if n == 0 then Some(s[n] as int - '0' as int)
      else if Value(s[..n]).None? then None
      else Some(10 * Value(s[..n]).value + (s[n] as int - '0' as int))
  }

  /** strconv.ParseInt(s, 10, 64): an optional sign, digits, and the range of int64. */
  function ParseInt(s: string): Option<int> {
    if s == "" then None
    else
      var signed := s[0] == '-' || s[0] == '+';
      var digits := Value(if signed then s[1..] else s);
      if digits.None? then None
      else
        var size: int := digits.value;
        var n := if s[0] == '-' then -size else size;
        if MIN_INT64 <= n <= MAX_INT64 then Some(n) else None
  }

  lemma {:induction false} ValueOfDigits(n: nat)
    ensures Value(Digits(n)) == Some(n)
  {
    if n >= 10 {
      ValueOfDigits(n / 10);
      var s := Digits(n);
      assert s[..|s| - 1] == Digits(n / 10);
    }
  }

  lemma ParseOfFormat(n: int)
    requires MIN_INT64 <= n <= MAX_INT64
    ensures ParseInt(FormatInt(n)) == Some(n)
  {
    hide Digits, Value;
    ValueOfDigits(if n < 0 then -n else n);
    assert n < 0 ==> FormatInt(n)[1..] == Digits(-n);
  }

  lemma FormatInjective(m: int, n: int)
    ensures FormatInt(m) == FormatInt(n) <==> m == n
  {
    hide Digits, Value;
    ValueOfDigits(if m < 0 then -m else m);
    ValueOfDigits(if n < 0 then -n else n);
    assert m < 0 ==> FormatInt(m)[1..] == Digits(-m);
    assert n < 0 ==> FormatInt(n)[1..] == Digits(-n);
    assert FormatInt(m)[0] == '-' <==> m < 0;
    assert FormatInt(n)[0] == '-' <==> n < 0;
  }

  // ---- Session usernames ----

  function SessionUsername(profile: int, voucherCode: string): string {
    FormatInt(profile) + "-" + ToLower(Without(voucherCode, "-"))
  }

  /** strings.IndexByte(s, '-'), -1 when there is none. */
  function IndexOfDash(s: string): (i: int)
    ensures -1 <= i < |s|
    ensures i >= 0 ==> s[i] == '-' && forall j :: 0 <= j < i ==> s[j] != '-'
    ensures i < 0 ==> forall j :: 0 <= j < |s| ==> s[j] != '-'
  {
    if s == "" then -1
    else if s[0] == '-' then 0
    else
      var rest := IndexOfDash(s[1..]);
      if rest < 0 then -1 else rest + 1
  }

  function ParseProfileFromUsername(username: string): Option<int> {
    var i := IndexOfDash(username);
    if i <= 0 then None else ParseInt(username[..i])
  }

  /** Parsing a username returns the profile it was built from exactly when that id is not negative. */
  lemma ProfileRoundTrip(profile: int, code: string)
    requires MIN_INT64 <= profile <= MAX_INT64
    ensures ParseProfileFromUsername(SessionUsername(profile, code)) == if profile >= 0 then Some(profile) else None
  {
    hide Digits, Value;
    var u := SessionUsername(profile, code);
    if profile >= 0 {
      var d := FormatInt(profile);
      assert u[|d|] == '-' && u[..|d|] == d;
      assert forall j :: 0 <= j < |d| ==> u[j] == d[j] != '-';
      assert IndexOfDash(u) == |d|;
      ParseOfFormat(profile);
    } else {
      assert u[0] == '-';
    }
  }

  /** Usernames of codes tell both the profile and the code apart; the displayed form of a code gives the same one. */
  lemma UsernameInjective(p: int, c: string, q: int, d: string)
    requires IsCode(c) && IsCode(d)
    ensures SessionUsername(p, c) == SessionUsername(q, d) <==> p == q && c == d
    ensures SessionUsername(p, DisplayCode(c)) == SessionUsername(p, c)
  {
    hide Digits, Value;
    DisplayStrips(c);
    CodeIsPlain(c);
    CodeIsPlain(d);
    var u, v := SessionUsername(p, c), SessionUsername(q, d);
    if u == v {
      assert u[..|u| - 9] == FormatInt(p) && v[..|v| - 9] == FormatInt(q);
      assert u[|u| - 8..] == ToLower(c) && v[|v| - 8..] == ToLower(d);
      FormatInjective(p, q);
    }
  }

  /** The username of a code ends in the code's eight characters in small letters. */
  lemma UsernameIsLower(profile: int, code: string, i: nat)
    requires IsCode(code) && i < 8
    ensures var u, n := SessionUsername(profile, code), |FormatInt(profile)|;
            && |u| == n + 9 && u[..n] == FormatInt(profile) && u[n] == '-'
            && !('A' <= u[n + 1 + i] <= 'Z') && Upper(u[n + 1 + i]) == code[i]
            && (code[i] <= '7' ==> u[n + 1 + i] == code[i])
  {
    hide FormatInt, Without, ToUpper, Upper, Lower;
    CodeIsPlain(code);
    assert SessionUsername(profile, code) == FormatInt(profile) + "-" + ToLower(code);
    AlphabetRange(code[i]);
    LowersTo(code[i]);
  }

  lemma LowersTo(c: char)
    requires '2' <= c <= '7' || 'A' <= c <= 'Z'
    ensures !('A' <= Lower(c) <= 'Z') && Upper(Lower(c)) == c && (c <= '7' ==> Lower(c) == c)
  {
  }
}
