/**
 * `Version`: a semver-like value `major.minor.patch` followed by a free-form
 * identifier, with its parser, factories, rendering and total order.
 */
module Versions {
  import opened Wrappers
  import opened JavaText

  /** A version number component: a non-negative Java `int`. */
  type Component = x: int | 0 <= x <= MaxInt

  /** The identifier is never null: a missing one is stored as "". */
  datatype Version = Version(major: Component, minor: Component, patch: Component, identifier: string)

  /** The private constructor behind `of`: rejects a negative component, checking
      major, then minor, then patch, and stores a null or empty identifier as "". */
  function Of(major: JInt, minor: JInt, patch: JInt, identifier: Option<string>): (r: Result<Version>)
    ensures r.Ok? <==> major >= 0 && minor >= 0 && patch >= 0
    ensures r.Ok? ==> r.value.major == major && r.value.minor == minor && r.value.patch == patch
    ensures r.Ok? && identifier.None? ==> r.value.identifier == ""
    ensures r.Ok? && identifier.Some? ==> r.value.identifier == identifier.value
    ensures major < 0 ==> r == Err(IllegalArgument("Major version cannot be negative: " + IntToString(major)))
    ensures major >= 0 && minor < 0 ==> r == Err(IllegalArgument("Minor version cannot be negative: " + IntToString(minor)))
    ensures major >= 0 && minor >= 0 && patch < 0 ==> r == Err(IllegalArgument("Patch version cannot be negative: " + IntToString(patch)))
  {
    if major < 0 then Err(IllegalArgument("Major version cannot be negative: " + IntToString(major)))
    else if minor < 0 then Err(IllegalArgument("Minor version cannot be negative: " + IntToString(minor)))
    else if patch < 0 then Err(IllegalArgument("Patch version cannot be negative: " + IntToString(patch)))
    else
      var id := match identifier
        case None => ""
        case Some(s) => if |s| == 0 then "" else s;
      Ok(Version(major, minor, patch, id))
  }

  /** `Version.of(major, minor, patch)`: no identifier. */
  function OfNumbers(major: JInt, minor: JInt, patch: JInt): (r: Result<Version>)
    ensures r.Ok? <==> major >= 0 && minor >= 0 && patch >= 0
    ensures r.Ok? ==> r.value == Version(major, minor, patch, "")
  {
    Of(major, minor, patch, None)
  }

  /** `s` is `String.format("%d.%d.%d%s", ...)` of the version's fields. */
  ghost predicate Formatted(s: string, v: Version) {
    exists a, b, c | Decimal(a, v.major) && Decimal(b, v.minor) && Decimal(c, v.patch) ::
      s == a + "." + b + "." + c + v.identifier
  }

  /** `toString`: the three numbers in decimal, dot-separated, then the
      identifier with no separator. */
  function ToString(v: Version): (s: string)
    ensures |s| >= 5 + |v.identifier|
    ensures IsDigit(s[0]) && IsDigit(s[|s| - |v.identifier| - 1])
    ensures s[|s| - |v.identifier|..] == v.identifier
  {
    NatToString(v.major) + "." + NatToString(v.minor) + "." + NatToString(v.patch) + v.identifier
  }

  /** `toString` is the `String.format` rendering: the three numbers as `%d`
      writes them, dot-separated, then the identifier. */
  lemma ToStringFormatted(v: Version)
    ensures Formatted(ToString(v), v)
  {
    NatToStringDecimal(v.major);
    NatToStringDecimal(v.minor);
    NatToStringDecimal(v.patch);
  }

  /** Every way of writing the three numbers as `%d` does gives `toString`:
      the rendering is determined by the version. */
  lemma ToStringIsFormat(v: Version, a: string, b: string, c: string)
    requires Decimal(a, v.major) && Decimal(b, v.minor) && Decimal(c, v.patch)
    ensures ToString(v) == a + "." + b + "." + c + v.identifier
  {
    DecimalIsNatToString(a, v.major);
    DecimalIsNatToString(b, v.minor);
    DecimalIsNatToString(c, v.patch);
  }

  /** A digit stands at position `k` of `text`. */
  predicate DigitAt(text: string, k: nat) {
    k < |text| && IsDigit(text[k])
  }

  /** The end of the run of digits that starts at `i` (greedy `\d+`). */
  function DigitRun(text: string, i: nat): (j: nat)
    requires i <= |text|
    ensures i <= j <= |text|
    ensures forall k | i <= k < j :: DigitAt(text, k)
    ensures j == |text| || !IsDigit(text[j])
    decreases |text| - i
  {
    if i < |text| && IsDigit(text[i]) then DigitRun(text, i + 1) else i
  }

  /** What the tail `(.*)?$` of the version pattern captures from the text after
      the patch number: all of it when it holds no line terminator, all but one
      final line terminator (`\r\n` counting as one), or else no match. */
  function TrailingText(rest: string): (r: Option<string>)
    ensures r.Some? ==> HasNoLineTerminator(r.value) && r.value <= rest
    ensures HasNoLineTerminator(rest) ==> r == Some(rest)
  {
    if HasNoLineTerminator(rest) then Some(rest)
    else if |rest| >= 2 && rest[|rest| - 2..] == "\r\n" && HasNoLineTerminator(rest[..|rest| - 2]) then
      Some(rest[..|rest| - 2])
    else if |rest| >= 1 && IsLineTerminator(rest[|rest| - 1]) && HasNoLineTerminator(rest[..|rest| - 1]) then
      Some(rest[..|rest| - 1])
    else None
  }

  function InvalidFormat(text: string): Failure {
    IllegalArgument("Invalid version string: '" + text + "'")
  }

  /** `Integer.parseInt` of a digit string: fails when the value exceeds `MaxInt`. */
  function ParseInt(digits: string): (r: Result<Component>)
    requires AllDigits(digits)
    ensures r.Ok? <==> DigitsValue(digits) <= MaxInt
    ensures r.Ok? ==> r.value == DigitsValue(digits)
    ensures r.Err? ==> r.error == NumberFormat(digits)
  {
    if DigitsValue(digits) <= MaxInt then Ok(DigitsValue(digits)) else Err(NumberFormat(digits))
  }

  /** The four capture groups of the version pattern. */
  datatype Groups = Groups(major: string, minor: string, patch: string, tail: string)

  /** The ends of the three digit groups of the version pattern: each group is
      a non-empty greedy digit run, and the first two are followed by a dot. */
  function Cuts(text: string): (r: Option<(nat, nat, nat)>)
    ensures r.Some? ==> var (i, j, k) := r.value;
      && 0 < i && i + 1 < j && j + 1 < k <= |text|
      && i == DigitRun(text, 0) && j == DigitRun(text, i + 1) && k == DigitRun(text, j + 1)
      && text[i] == '.' && text[j] == '.'
  {
    var i := DigitRun(text, 0);
    if i == 0 || i == |text| || text[i] != '.' then None
    else
      var j := DigitRun(text, i + 1);
      if j == i + 1 || j == |text| || text[j] != '.' then None
      else
        var k := DigitRun(text, j + 1);
        if k == j + 1 then None else Some((i, j, k))
  }

  /** Matching `^(\d+)\.(\d+)\.(\d+)(.*)?$` against the whole text. */
  function MatchPattern(text: string): (r: Option<Groups>)
    ensures r.Some? ==> |r.value.major| > 0 && |r.value.minor| > 0 && |r.value.patch| > 0
    ensures r.Some? ==> AllDigits(r.value.major) && AllDigits(r.value.minor) && AllDigits(r.value.patch)
    ensures r.Some? ==> HasNoLineTerminator(r.value.tail)
    ensures r.Some? ==> |text| > 0 && text[0] == r.value.major[0]
  {
    match Cuts(text)
    case None => None
    case Some((i, j, k)) =>
      match TrailingText(text[k..])
      case None => None
      case Some(tail) =>
        GroupDigits(text, 0, i);
        GroupDigits(text, i + 1, j);
        GroupDigits(text, j + 1, k);
        SlicesJoin(text, i, j, k);
        Some(Groups(text[..i], text[i + 1..j], text[j + 1..k], tail))
  }

  /** A stretch of digit characters is a digit string. */
  lemma GroupDigits(text: string, lo: nat, hi: nat)
    requires lo <= hi <= |text| && forall n | lo <= n < hi :: DigitAt(text, n)
    ensures AllDigits(text[lo..hi])
  {
    forall n | 0 <= n < hi - lo
      ensures IsDigit(text[lo..hi][n])
    {
      assert DigitAt(text, lo + n);
    }
  }

  /** The numbers are converted major first, so the first one that overflows
      is the one reported. */
  function FromGroups(g: Groups): (r: Result<Version>)
    requires AllDigits(g.major) && AllDigits(g.minor) && AllDigits(g.patch)
  {
    match ParseInt(g.major)
    case Err(e) => Err(e)
    case Ok(major) =>
      match ParseInt(g.minor)
      case Err(e) => Err(e)
      case Ok(minor) =>
        match ParseInt(g.patch)
        case Err(e) => Err(e)
        case Ok(patch) => Of(major, minor, patch, Some(g.tail))
  }

  /** `Version.parse`: match the version pattern, convert the three numbers with
      `Integer.parseInt` and keep the tail verbatim as the identifier. */
  function Parse(text: string): (r: Result<Version>)
    ensures r.Ok? ==> |text| > 0 && IsDigit(text[0])
    ensures r.Ok? ==> HasNoLineTerminator(r.value.identifier)
    ensures r.Ok? && r.value.identifier != "" ==> !IsDigit(r.value.identifier[0])
    ensures r.Err? ==> r.error.IsIllegalArgument()
  {
    match MatchPattern(text)
    case None => Err(InvalidFormat(text))
    case Some(g) => FromGroups(g)
  }

  /** `a` followed by `.`, `b`, `.`, `c` and `rest`, where `a`, `b`, `c` are
      non-empty digit strings and `rest` does not continue the patch number. */
  ghost predicate Shaped(text: string, a: string, b: string, c: string, rest: string) {
    && |a| > 0 && |b| > 0 && |c| > 0
    && AllDigits(a) && AllDigits(b) && AllDigits(c)
    && (rest == "" || !IsDigit(rest[0]))
    && text == a + "." + b + "." + c + rest
  }

  /** The pieces of a shaped text, by position. */
  lemma ShapedSlices(text: string, a: string, b: string, c: string, rest: string)
    requires text == a + "." + b + "." + c + rest
    ensures |text| == |a| + |b| + |c| + |rest| + 2
    ensures text[..|a|] == a && text[|a|] == '.'
    ensures text[|a| + 1..|a| + 1 + |b|] == b && text[|a| + 1 + |b|] == '.'
    ensures text[|a| + |b| + 2..|a| + |b| + 2 + |c|] == c
    ensures text[|a| + |b| + 2 + |c|..] == rest
  {
    var s1 := a + ".";
    var s2 := s1 + b;
    var s3 := s2 + ".";
    var s4 := s3 + c;
    assert text == s4 + rest;
    assert text[..|s4|] == s4 && text[|s4|..] == rest;
    assert s4[..|s3|] == s3 && s4[|s3|..] == c;
    assert s3[..|s2|] == s2 && s3[|s2|] == '.';
    assert s2[..|s1|] == s1 && s2[|s1|..] == b;
    assert s1[..|a|] == a && s1[|a|] == '.';
    assert text[..|s3|] == s3 && text[|s3|..|s4|] == c;
    assert text[..|s2|] == s2 && text[|s2|] == '.';
    assert text[..|s1|] == s1 && text[|s1|..|s2|] == b;
  }

  /** Where the three digit groups of a shaped text end. */
  lemma ShapedRuns(text: string, a: string, b: string, c: string, rest: string)
    requires Shaped(text, a, b, c, rest)
    ensures Cuts(text) == Some((|a|, |a| + 1 + |b|, |a| + |b| + 2 + |c|))
    ensures text[..|a|] == a && text[|a| + 1..|a| + 1 + |b|] == b
    ensures text[|a| + |b| + 2..|a| + |b| + 2 + |c|] == c && text[|a| + |b| + 2 + |c|..] == rest
  {
    ShapedSlices(text, a, b, c, rest);
    ShapedDigits(text, a, b, c, rest);
    RunsAt(text, |a|, |b|, |c|);
  }

  /** The characters of a shaped text, position by position. */
  lemma ShapedDigits(text: string, a: string, b: string, c: string, rest: string)
    requires Shaped(text, a, b, c, rest)
    ensures |a| + |b| + |c| + 2 <= |text|
    ensures forall k | 0 <= k < |a| :: DigitAt(text, k)
    ensures text[|a|] == '.'
    ensures forall k | |a| + 1 <= k < |a| + 1 + |b| :: DigitAt(text, k)
    ensures text[|a| + 1 + |b|] == '.'
    ensures forall k | |a| + |b| + 2 <= k < |a| + |b| + 2 + |c| :: DigitAt(text, k)
    ensures |a| + |b| + 2 + |c| == |text| || !IsDigit(text[|a| + |b| + 2 + |c|])
  {
    ShapedSlices(text, a, b, c, rest);
    var k := |a| + |b| + 2 + |c|;
    assert k == |text| || !IsDigit(text[k]) by {
      if k < |text| {
        assert text[k] == rest[0];
      }
    }
    assert text[0..|a|] == a;
    DigitsAt(text, 0, a);
    DigitsAt(text, |a| + 1, b);
    DigitsAt(text, |a| + |b| + 2, c);
  }

  /** Where the three digit groups end, from the characters at each position. */
  lemma RunsAt(text: string, la: nat, lb: nat, lc: nat)
    requires 0 < la && 0 < lb && 0 < lc && la + lb + lc + 2 <= |text|
    requires forall k | 0 <= k < la :: DigitAt(text, k)
    requires text[la] == '.'
    requires forall k | la + 1 <= k < la + 1 + lb :: DigitAt(text, k)
    requires text[la + 1 + lb] == '.'
    requires forall k | la + lb + 2 <= k < la + lb + 2 + lc :: DigitAt(text, k)
    requires la + lb + 2 + lc == |text| || !IsDigit(text[la + lb + 2 + lc])
    ensures Cuts(text) == Some((la, la + 1 + lb, la + lb + 2 + lc))
  {
    RunOver(text, 0, la);
    RunOver(text, la + 1, la + 1 + lb);
    RunOver(text, la + lb + 2, la + lb + 2 + lc);
  }

  /** A digit string standing in the text at `i` puts a digit at each of its positions. */
  lemma DigitsAt(text: string, i: nat, piece: string)
    requires i + |piece| <= |text| && text[i..i + |piece|] == piece && AllDigits(piece)
    ensures forall k | i <= k < i + |piece| :: DigitAt(text, k)
  {
    forall k | i <= k < i + |piece|
      ensures DigitAt(text, k)
    {
      assert text[k] == piece[k - i];
    }
  }

  /** A digit run stops exactly at the first non-digit. */
  lemma {:induction false} RunOver(text: string, i: nat, j: nat)
    requires i <= j <= |text|
    requires forall k | i <= k < j :: DigitAt(text, k)
    requires j == |text| || !IsDigit(text[j])
    ensures DigitRun(text, i) == j
    decreases j - i
  {
    if i < j {
      assert DigitAt(text, i);
      RunOver(text, i + 1, j);
    }
  }

  /** `parse` accepts every `digits.digits.digits` text followed by a tail
      without line terminators: the tail becomes the identifier verbatim, and
      the first component above `MaxInt` is reported as a number format error. */
  lemma ParseShaped(text: string, a: string, b: string, c: string, rest: string)
    requires Shaped(text, a, b, c, rest) && HasNoLineTerminator(rest)
    ensures DigitsValue(a) > MaxInt ==> Parse(text) == Err(NumberFormat(a))
    ensures DigitsValue(a) <= MaxInt && DigitsValue(b) > MaxInt ==> Parse(text) == Err(NumberFormat(b))
    ensures DigitsValue(a) <= MaxInt && DigitsValue(b) <= MaxInt && DigitsValue(c) > MaxInt ==>
              Parse(text) == Err(NumberFormat(c))
    ensures DigitsValue(a) <= MaxInt && DigitsValue(b) <= MaxInt && DigitsValue(c) <= MaxInt ==>
              Parse(text) == Ok(Version(DigitsValue(a), DigitsValue(b), DigitsValue(c), rest))
  {
    MatchShaped(text, a, b, c, rest);
  }

  lemma MatchShaped(text: string, a: string, b: string, c: string, rest: string)
    requires Shaped(text, a, b, c, rest) && HasNoLineTerminator(rest)
    ensures MatchPattern(text) == Some(Groups(a, b, c, rest))
  {
    ShapedRuns(text, a, b, c, rest);
    MatchAt(text, |a|, |a| + 1 + |b|, |a| + |b| + 2 + |c|, rest);
  }

  /** The groups the pattern captures, given where the digit groups end and
      what the tail captures. */
  lemma MatchAt(text: string, i: nat, j: nat, k: nat, tail: string)
    requires Cuts(text) == Some((i, j, k)) && TrailingText(text[k..]) == Some(tail)
    ensures MatchPattern(text) == Some(Groups(text[..i], text[i + 1..j], text[j + 1..k], tail))
  {
  }

  /** Conversely, every text `parse` accepts is shaped, and the version holds
      the values of its three digit strings. */
  lemma ParseOnlyShaped(text: string)
    requires Parse(text).Ok?
    ensures exists a, b, c, rest :: Shaped(text, a, b, c, rest)
              && Parse(text).value.major == DigitsValue(a)
              && Parse(text).value.minor == DigitsValue(b)
              && Parse(text).value.patch == DigitsValue(c)
              && Parse(text).value.identifier <= rest
  {
    var g := MatchPattern(text).value;
    var rest := MatchedShaped(text);
    FromGroupsValues(g);
    assert Shaped(text, g.major, g.minor, g.patch, rest);
  }

  /** A text the pattern matches is its three digit groups, dot-separated,
      followed by a rest that begins with the tail. */
  lemma MatchedShaped(text: string) returns (rest: string)
    requires MatchPattern(text).Some?
    ensures var g := MatchPattern(text).value;
      Shaped(text, g.major, g.minor, g.patch, rest) && g.tail <= rest
  {
    var (i, j, k) := Cuts(text).value;
    var tail := TrailingText(text[k..]).value;
    MatchAt(text, i, j, k, tail);
    SlicesJoin(text, i, j, k);
    rest := text[k..];
    assert text == text[..k] + rest;
    assert rest != "" ==> rest[0] == text[k];
  }

  /** A successful conversion holds the values of the three groups and the tail. */
  lemma FromGroupsValues(g: Groups)
    requires AllDigits(g.major) && AllDigits(g.minor) && AllDigits(g.patch)
    requires FromGroups(g).Ok?
    ensures FromGroups(g).value == Version(DigitsValue(g.major), DigitsValue(g.minor), DigitsValue(g.patch), g.tail)
  {
  }

  /** A text cut at two dots begins with the concatenation of its pieces. */
  lemma SlicesJoin(text: string, i: nat, j: nat, k: nat)
    requires i < j < k <= |text| && text[i] == '.' && text[j] == '.'
    ensures text[..k] == text[..i] + "." + text[i + 1..j] + "." + text[j + 1..k]
  {
    assert text[..j] == text[..i] + "." + text[i + 1..j];
  }

  /** Rendering then parsing gives the version back whenever the identifier
      cannot be mistaken for more patch digits or cut at a line terminator. */
  lemma ParseToString(v: Version)
    requires HasNoLineTerminator(v.identifier)
    requires v.identifier == "" || !IsDigit(v.identifier[0])
    ensures Parse(ToString(v)) == Ok(v)
  {
    var a, b, c := NatToString(v.major), NatToString(v.minor), NatToString(v.patch);
    DigitsValueOfNatToString(v.major);
    DigitsValueOfNatToString(v.minor);
    DigitsValueOfNatToString(v.patch);
    assert Shaped(ToString(v), a, b, c, v.identifier);
    ParseShaped(ToString(v), a, b, c, v.identifier);
  }

  /** `compareTo`: numbers first, then an empty identifier ranks above any
      non-empty one, and two non-empty identifiers compare as strings. */
  function Compare(a: Version, b: Version): (r: int)
    ensures -MaxInt <= r <= MaxInt || (a.major == b.major && a.minor == b.minor && a.patch == b.patch)
  {
    if a.major != b.major then a.major - b.major
    else if a.minor != b.minor then a.minor - b.minor
    else if a.patch != b.patch then a.patch - b.patch
    else if a.identifier == "" then (if b.identifier == "" then 0 else 1)
    else if b.identifier == "" then -1
    else CompareStrings(a.identifier, b.identifier)
  }

  /** Plain lexicographic order on strings: a proper prefix comes first,
      otherwise the first differing character decides. */
  ghost predicate LexLess(s: string, t: string) {
    || (|s| < |t| && s == t[..|s|])
    || exists k | 0 <= k < |s| && k < |t| :: s[..k] == t[..k] && s[k] < t[k]
  }

  lemma {:induction false} CompareStringsIsLexLess(s: string, t: string)
    ensures CompareStrings(s, t) < 0 <==> LexLess(s, t)
  {
    LexLessHead(s, t);
    if |s| > 0 && |t| > 0 {
      if s[0] < t[0] {
        assert s[..0] == t[..0];
      } else if s[0] == t[0] {
        CompareStringsIsLexLess(s[1..], t[1..]);
        LexLessTail(s, t);
      }
    }
  }

  /** Lexicographic order never puts a larger first character first. */
  lemma LexLessHead(s: string, t: string)
    ensures |s| > 0 && |t| > 0 && LexLess(s, t) ==> s[0] <= t[0]
    ensures |t| == 0 ==> !LexLess(s, t)
  {
    if |s| > 0 && |t| > 0 && LexLess(s, t) {
      if |s| < |t| && s == t[..|s|] {
        assert s[0] == t[..|s|][0];
      } else {
        var k :| 0 <= k < |s| && k < |t| && s[..k] == t[..k] && s[k] < t[k];
        if k > 0 {
          assert s[..k][0] == t[..k][0];
        }
      }
    }
  }

  /** Dropping a common first character keeps the lexicographic order. */
  lemma LexLessTail(s: string, t: string)
    requires |s| > 0 && |t| > 0 && s[0] == t[0]
    ensures LexLess(s, t) <==> LexLess(s[1..], t[1..])
  {
    if LexLess(s[1..], t[1..]) {
      LexLessConsed(s, t);
    }
    if LexLess(s, t) {
      LexLessDropped(s, t);
    }
  }

  /** Putting the same character in front of two ordered strings keeps them ordered. */
  lemma LexLessConsed(s: string, t: string)
    requires |s| > 0 && |t| > 0 && s[0] == t[0] && LexLess(s[1..], t[1..])
    ensures LexLess(s, t)
  {
    if |s[1..]| < |t[1..]| && s[1..] == t[1..][..|s[1..]|] {
      assert s == [s[0]] + s[1..] && t[..|s|] == [t[0]] + t[1..][..|s| - 1];
    } else {
      var k :| 0 <= k < |s[1..]| && k < |t[1..]| && s[1..][..k] == t[1..][..k] && s[1..][k] < t[1..][k];
      assert s[..k + 1] == [s[0]] + s[1..][..k] && t[..k + 1] == [t[0]] + t[1..][..k];
    }
  }

  /** Two ordered strings with the same first character stay ordered without it. */
  lemma LexLessDropped(s: string, t: string)
    requires |s| > 0 && |t| > 0 && s[0] == t[0] && LexLess(s, t)
    ensures LexLess(s[1..], t[1..])
  {
    if |s| < |t| && s == t[..|s|] {
      assert s[1..] == t[1..][..|s[1..]|];
    } else {
      var k :| 0 <= k < |s| && k < |t| && s[..k] == t[..k] && s[k] < t[k];
      assert k > 0;
      assert s[1..][..k - 1] == s[..k][1..] && t[1..][..k - 1] == t[..k][1..];
    }
  }

  /** The order `compareTo` is meant to implement, written out: by major, then
      minor, then patch; on equal numbers a version with an identifier comes
      before one without, and two identifiers are ordered lexicographically. */
  ghost predicate Before(a: Version, b: Version) {
    || a.major < b.major
    || (a.major == b.major && a.minor < b.minor)
    || (a.major == b.major && a.minor == b.minor && a.patch < b.patch)
    || (a.major == b.major && a.minor == b.minor && a.patch == b.patch
        && a.identifier != "" && (b.identifier == "" || LexLess(a.identifier, b.identifier)))
  }

  /** `compareTo` is negative exactly when the first version comes before the second. */
  lemma CompareIsBefore(a: Version, b: Version)
    ensures Compare(a, b) < 0 <==> Before(a, b)
  {
    CompareStringsIsLexLess(a.identifier, b.identifier);
  }

  /** `compareTo` is consistent with `equals`, which compares all four fields. */
  lemma CompareZeroIffEqual(a: Version, b: Version)
    ensures Compare(a, b) == 0 <==> a == b
  {
    CompareStringsZero(a.identifier, b.identifier);
  }

  /** Swapping the arguments negates the result. */
  lemma CompareFlip(a: Version, b: Version)
    ensures Compare(b, a) == -Compare(a, b)
  {
    CompareStringsFlip(a.identifier, b.identifier);
  }

  lemma CompareTransitive(a: Version, b: Version, c: Version)
    requires Compare(a, b) <= 0 && Compare(b, c) <= 0
    ensures Compare(a, c) <= 0
  {
    if a.major == b.major == c.major && a.minor == b.minor == c.minor && a.patch == b.patch == c.patch
       && a.identifier != "" && b.identifier != "" && c.identifier != "" {
      CompareStringsTransitive(a.identifier, b.identifier, c.identifier);
    }
  }

  /** A text that does not start with a digit has no major number. */
  lemma ParseRejectsMissingMajor(text: string)
    requires text == "" || !IsDigit(text[0])
    ensures Parse(text).Err? && Parse(text).error == InvalidFormat(text)
  {
  }

  /** A major number followed by a dot and then no digit has no minor number. */
  lemma ParseRejectsMissingMinor(text: string, a: string, rest: string)
    requires |a| > 0 && AllDigits(a) && (rest == "" || !IsDigit(rest[0]))
    requires text == a + "." + rest
    ensures Parse(text) == Err(InvalidFormat(text))
  {
    assert text[0..|a|] == a && text[|a|] == '.';
    DigitsAt(text, 0, a);
    RunOver(text, 0, |a|);
    assert |a| + 1 == |text| || text[|a| + 1] == rest[0];
    RunOver(text, |a| + 1, |a| + 1);
  }

  /** Two numbers followed by a dot and then no digit have no patch number. */
  lemma ParseRejectsMissingPatch(text: string, a: string, b: string, rest: string)
    requires |a| > 0 && AllDigits(a) && |b| > 0 && AllDigits(b) && (rest == "" || !IsDigit(rest[0]))
    requires text == a + "." + b + "." + rest
    ensures Parse(text) == Err(InvalidFormat(text))
  {
    assert text == a + "." + b + "." + "" + rest;
    ShapedSlices(text, a, b, "", rest);
    var k := |a| + |b| + 2;
    assert k == |text| || !IsDigit(text[k]) by {
      if k < |text| {
        assert text[k] == rest[0];
      }
    }
    assert text[0..|a|] == a;
    DigitsAt(text, 0, a);
    DigitsAt(text, |a| + 1, b);
    NoPatchAt(text, |a|, |b|);
  }

  /** Two dot-terminated digit groups with no digit after the second dot. */
  lemma NoPatchAt(text: string, la: nat, lb: nat)
    requires 0 < la && 0 < lb && la + lb + 2 <= |text|
    requires forall k | 0 <= k < la :: DigitAt(text, k)
    requires text[la] == '.'
    requires forall k | la + 1 <= k < la + 1 + lb :: DigitAt(text, k)
    requires text[la + 1 + lb] == '.'
    requires la + lb + 2 == |text| || !IsDigit(text[la + lb + 2])
    ensures Cuts(text).None?
  {
    RunOver(text, 0, la);
    RunOver(text, la + 1, la + 1 + lb);
    RunOver(text, la + lb + 2, la + lb + 2);
  }

  /** The rendering cases the unit tests exercise: `1.2.3`, and `3.4.5` with
      any identifier, `some-identifier-text` among them, glued on. */
  lemma ToStringExamples(identifier: string)
    ensures ToString(Version(1, 2, 3, "")) == "1.2.3"
    ensures ToString(Version(3, 4, 5, identifier)) == "3.4.5" + identifier
  {
    SmallNumerals();
    assert "1" + "." + "2" + "." + "3" == "1.2.3";
    assert "3" + "." + "4" + "." + "5" == "3.4.5";
  }

  /** The renderings of the digits the examples use. */
  lemma SmallNumerals()
    ensures NatToString(1) == "1" && NatToString(2) == "2" && NatToString(3) == "3"
    ensures NatToString(4) == "4" && NatToString(5) == "5"
  {
  }

  /** The ordering cases the unit tests exercise. */
  lemma CompareExamples()
    ensures Compare(Version(1, 0, 0, ""), Version(20, 0, 0, "")) < 0
    ensures Compare(Version(1, 0, 0, ""), Version(1, 100, 0, "")) < 0
    ensures Compare(Version(1, 0, 0, ""), Version(1, 0, 10, "")) < 0
    ensures Compare(Version(1, 2, 3, "identifier"), Version(1, 2, 3, "")) < 0
    ensures Compare(Version(1, 2, 3, "a"), Version(1, 2, 3, "b")) < 0
    ensures Compare(Version(1, 2, 3, "identifier"), Version(1, 2, 3, "identifier")) == 0
  {
    CompareZeroIffEqual(Version(1, 2, 3, "identifier"), Version(1, 2, 3, "identifier"));
  }
}
