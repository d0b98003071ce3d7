/** The string helpers of the frontend (frontend/src/utils/helpers.js), of
    which backend/utils/helpers.js keeps identical copies: truncating,
    capitalising and grouping the digits of a number with commas. */
module Text {
  import opened JsValues
  import opened JsStrings

  const DEFAULT_TRUNCATE_LENGTH: int := 50
  const ELLIPSIS := "..."

  /** `substring` clamps a negative end to 0. */
  function ClampLength(n: int): nat {
    if n < 0 then 0 else n
  }

  /** `truncateText`: `''` for a missing or empty text, the text itself when
      it fits in `length` (50 by default), otherwise its first `length`
      characters followed by `...`. */
  function TruncateText(text: Option<string>, length: Option<int>): (r: string)
    ensures text.None? || text.value == "" ==> r == ""
    ensures text.Some? && |text.value| <= length.GetOr(DEFAULT_TRUNCATE_LENGTH) ==> r == text.value
    ensures text.Some? && text.value != "" && |text.value| > length.GetOr(DEFAULT_TRUNCATE_LENGTH) ==>
      var n := ClampLength(length.GetOr(DEFAULT_TRUNCATE_LENGTH));
      |r| == n + 3 && r[..n] == text.value[..n] && r[n..] == ELLIPSIS
  {
    if text.None? || text.value == "" then ""
    else
      var n := length.GetOr(DEFAULT_TRUNCATE_LENGTH);
      if |text.value| <= n then text.value
      else text.value[..ClampLength(n)] + ELLIPSIS
  }

  /** Truncating a truncated text again, to the same non-negative length,
      changes nothing. */
  lemma TruncateTextIdempotent(text: Option<string>, length: Option<int>)
    requires length.GetOr(DEFAULT_TRUNCATE_LENGTH) >= 0
    ensures TruncateText(Some(TruncateText(text, length)), length) == TruncateText(text, length)
  {
    var r := TruncateText(text, length);
    var n := length.GetOr(DEFAULT_TRUNCATE_LENGTH);
    if text.Some? && |text.value| > n {
      assert r == text.value[..n] + ELLIPSIS;
      assert r[..n] == text.value[..n];
      assert (text.value[..n] + ELLIPSIS)[..n] == text.value[..n];
    }
  }

  /** `toUpperCase` on one character; only ASCII letters are mapped. */
  function UpperCase(c: char): (u: char)
    ensures 'a' <= c <= 'z' ==> u as int == c as int - 32
    ensures !('a' <= c <= 'z') ==> u == c
  {
    if 'a' <= c <= 'z' then (c as int - 32) as char else c
  }

  /** `capitalize`: `''` for a missing or empty string, otherwise the first
      character upper-cased and the rest unchanged. */
  function Capitalize(s: Option<string>): (r: string)
    ensures s.None? || s.value == "" ==> r == ""
    ensures s.Some? && s.value != "" ==> |r| == |s.value| && r[0] == UpperCase(s.value[0]) && r[1..] == s.value[1..]
  {
    if s.None? || s.value == "" then "" else [UpperCase(s.value[0])] + s.value[1..]
  }

  /** Capitalising twice is capitalising once. */
  lemma CapitalizeIdempotent(s: Option<string>)
    ensures Capitalize(Some(Capitalize(s))) == Capitalize(s)
  {
    if s.Some? && s.value != "" {
      var r := Capitalize(s);
      assert UpperCase(UpperCase(s.value[0])) == UpperCase(s.value[0]);
      assert [UpperCase(r[0])] + r[1..] == r;
    }
  }

  // ---------------------------------------------------------------- formatNumber

  /** A character `\w` matches. */
  predicate IsWordChar(c: char) {
    'a' <= c <= 'z' || 'A' <= c <= 'Z' || IsDigit(c) || c == '_'
  }

  /** The length of the run of digits starting at `p`. */
  function DigitRun(s: string, p: nat): (n: nat)
    requires p <= |s|
    ensures p + n <= |s|
    ensures p + n == |s| || !IsDigit(s[p + n])
    decreases |s| - p
  {
    if p < |s| && IsDigit(s[p]) then 1 + DigitRun(s, p + 1) else 0
  }

  /** Where `/\B(?=(\d{3})+(?!\d))/g` matches: a position inside a word (the
      character before it is a word character, as the digit after it is)
      from which the digits run on for a positive multiple of three. Position
      0 never qualifies, since a digit there starts a word. */
  predicate CommaAt(s: string, p: nat) {
    0 < p < |s| && IsWordChar(s[p - 1]) && DigitRun(s, p) > 0 && DigitRun(s, p) % 3 == 0
  }

  /** What the replacement leaves of position `p`: its character, behind a
      comma where the pattern matches. The pattern only looks ahead, so
      every position is judged on the original string. */
  function Piece(s: string, p: nat): string
    requires p < |s|
  {
    if CommaAt(s, p) then [',', s[p]] else [s[p]]
  }

  /** The replacement from position `p` on. */
  function GroupFrom(s: string, p: nat): string
    requires p <= |s|
    decreases |s| - p
  {
    if p == |s| then "" else Piece(s, p) + GroupFrom(s, p + 1)
  }

  /** `formatNumber` as written, on the number's `toString()`. */
  function FormatNumber(s: string): string {
    GroupFrom(s, 0)
  }

  function RemoveCommas(s: string): (r: string)
    ensures ',' !in r
  {
    if s == [] then [] else (if s[0] == ',' then [] else [s[0]]) + RemoveCommas(s[1..])
  }

  lemma {:induction false} RemoveCommasAppend(a: string, b: string)
    ensures RemoveCommas(a + b) == RemoveCommas(a) + RemoveCommas(b)
  {
    if a != [] {
      assert (a + b)[0] == a[0];
      assert (a + b)[1..] == a[1..] + b;
      RemoveCommasAppend(a[1..], b);
      var h := if a[0] == ',' then [] else [a[0]];
      assert RemoveCommas(a + b) == h + (RemoveCommas(a[1..]) + RemoveCommas(b));
      assert RemoveCommas(a) == h + RemoveCommas(a[1..]);
    } else {
      assert a + b == b;
    }
  }

  lemma PieceRemoveCommas(s: string, p: nat)
    requires p < |s| && s[p] != ','
    ensures RemoveCommas(Piece(s, p)) == [s[p]]
  {
    var c := [s[p]];
    assert c[1..] == [];
    assert RemoveCommas(c) == c + RemoveCommas([]);
    if CommaAt(s, p) {
      var t := [',', s[p]];
      assert t[1..] == c;
      assert RemoveCommas(t) == [] + RemoveCommas(c);
    }
  }

  lemma {:induction false} GroupFromRemoveCommas(s: string, p: nat)
    requires p <= |s| && ',' !in s
    ensures RemoveCommas(GroupFrom(s, p)) == s[p..]
    decreases |s| - p
  {
    if p < |s| {
      GroupFromRemoveCommas(s, p + 1);
      assert s[p] in s;
      GroupFromRemoveCommasStep(s, p);
    }
  }

  /** One position of the induction above. */
  lemma GroupFromRemoveCommasStep(s: string, p: nat)
    requires p < |s| && s[p] != ','
    requires RemoveCommas(GroupFrom(s, p + 1)) == s[p + 1..]
    ensures RemoveCommas(GroupFrom(s, p)) == s[p..]
  {
    PieceRemoveCommas(s, p);
    RemoveCommasJoin(Piece(s, p), GroupFrom(s, p + 1), s[p], s[p + 1..]);
    assert s[p..] == [s[p]] + s[p + 1..];
  }

  lemma RemoveCommasJoin(piece: string, rest: string, c: char, tail: string)
    requires RemoveCommas(piece) == [c] && RemoveCommas(rest) == tail
    ensures RemoveCommas(piece + rest) == [c] + tail
  {
    RemoveCommasAppend(piece, rest);
  }

  /** Only commas are inserted: removing them gives back the number's string. */
  lemma FormatNumberRemoveCommas(s: string)
    ensures ',' !in s ==> RemoveCommas(FormatNumber(s)) == s
  {
    if ',' !in s {
      GroupFromRemoveCommas(s, 0);
    }
  }

  predicate AllDigits(s: string) {
    forall i :: 0 <= i < |s| ==> IsDigit(s[i])
  }

  /** In a string of digits a comma goes before every position a multiple of
      three from the end, except the first. */
  lemma CommaAtInDigits(s: string, p: nat)
    requires AllDigits(s) && p < |s|
    ensures CommaAt(s, p) <==> 0 < p && (|s| - p) % 3 == 0
  {
  }

  /** The reference grouping: the last three digits split off, the rest grouped
      the same way, until at most three remain. */
  function GroupThousands(d: string): (r: string)
    decreases |d|
  {
    if |d| <= 3 then d else GroupThousands(d[..|d| - 3]) + "," + d[|d| - 3..]
  }

  /** A position of a string of digits, behind a comma exactly when a
      multiple of three digits, not all of them, follow from it. */
  lemma PieceInDigits(s: string, p: nat)
    requires AllDigits(s) && p < |s|
    ensures Piece(s, p) == if 0 < p && (|s| - p) % 3 == 0 then [',', s[p]] else [s[p]]
  {
    CommaAtInDigits(s, p);
  }

  /** With fewer than three digits left, or three at most in all, no
      position qualifies and the rest is copied unchanged. */
  lemma {:induction false} GroupFromPlain(s: string, p: nat)
    requires AllDigits(s) && p <= |s|
    requires (p == 0 && |s| <= 3) || |s| - p < 3
    ensures GroupFrom(s, p) == s[p..]
    decreases |s| - p
  {
    if p < |s| {
      PieceInDigits(s, p);
      GroupFromPlain(s, p + 1);
      assert s[p..] == [s[p]] + s[p + 1..];
    }
  }

  /** Dropping the last three digits changes no decision before them. */
  lemma PieceOfInit(s: string, p: nat)
    requires AllDigits(s) && |s| > 3 && p < |s| - 3
    ensures Piece(s[..|s| - 3], p) == Piece(s, p)
  {
    var init := s[..|s| - 3];
    assert AllDigits(init);
    PieceInDigits(s, p);
    PieceInDigits(init, p);
    assert (|s| - p) % 3 == (|init| - p) % 3;
  }

  /** Dropping the last three digits leaves the commas before them in place
      and the last group behind a comma of its own. */
  lemma {:induction false} GroupFromSplitLast(s: string, p: nat)
    requires AllDigits(s) && |s| > 3 && p <= |s| - 3
    ensures GroupFrom(s, p) == GroupFrom(s[..|s| - 3], p) + "," + s[|s| - 3..]
    decreases |s| - p
  {
    var init := s[..|s| - 3];
    var last := s[|s| - 3..];
    if p == |s| - 3 {
      PieceInDigits(s, p);
      GroupFromPlain(s, p + 1);
      assert GroupFrom(init, p) == "";
      assert last == [s[p]] + s[p + 1..];
      GroupFromStep(s, p, [',', s[p]], s[p + 1..]);
    } else {
      PieceOfInit(s, p);
      GroupFromSplitLast(s, p + 1);
      var piece := Piece(s, p);
      var rest := GroupFrom(init, p + 1);
      GroupFromStep(init, p, piece, rest);
      GroupFromStep(s, p, piece, rest + "," + last);
    }
  }

  /** On a string of digits, `formatNumber` is the reference grouping: groups
      of exactly three after a first group of one to three. */
  lemma {:induction false} FormatNumberOfDigits(s: string)
    requires AllDigits(s)
    ensures FormatNumber(s) == GroupThousands(s)
    decreases |s|
  {
    if |s| <= 3 {
      GroupFromPlain(s, 0);
    } else {
      GroupFromSplitLast(s, 0);
      FormatNumberOfDigits(s[..|s| - 3]);
    }
  }

  /** For a non-negative integer the commas can be removed again and the
      groups are those of the reference grouping. */
  lemma FormatNonNegativeInteger(n: nat)
    ensures RemoveCommas(FormatNumber(NatToString(n))) == NatToString(n)
    ensures FormatNumber(NatToString(n)) == GroupThousands(NatToString(n))
  {
    FormatNumberRemoveCommas(NatToString(n));
    FormatNumberOfDigits(NatToString(n));
  }

  const FRACTIONAL_EXAMPLE := "1234.5678"

  lemma FractionalExamplePieces()
    ensures Piece(FRACTIONAL_EXAMPLE, 0) == "1"
    ensures Piece(FRACTIONAL_EXAMPLE, 1) == ",2"
    ensures Piece(FRACTIONAL_EXAMPLE, 2) == "3"
    ensures Piece(FRACTIONAL_EXAMPLE, 3) == "4"
    ensures Piece(FRACTIONAL_EXAMPLE, 4) == "."
    ensures Piece(FRACTIONAL_EXAMPLE, 5) == "5"
    ensures Piece(FRACTIONAL_EXAMPLE, 6) == ",6"
    ensures Piece(FRACTIONAL_EXAMPLE, 7) == "7"
    ensures Piece(FRACTIONAL_EXAMPLE, 8) == "8"
  {
    var s := FRACTIONAL_EXAMPLE;
    assert DigitRun(s, 8) == 1 && DigitRun(s, 7) == 2 && DigitRun(s, 6) == 3 && DigitRun(s, 5) == 4;
    assert DigitRun(s, 4) == 0 && DigitRun(s, 3) == 1 && DigitRun(s, 2) == 2 && DigitRun(s, 1) == 3;
  }

  /** One position of the replacement, its piece in front of the rest. */
  lemma GroupFromStep(s: string, p: nat, piece: string, rest: string)
    requires p < |s| && Piece(s, p) == piece && GroupFrom(s, p + 1) == rest
    ensures GroupFrom(s, p) == piece + rest
  {
  }

  lemma FractionalExampleTail()
    ensures GroupFrom(FRACTIONAL_EXAMPLE, 5) == "5" + (",6" + ("7" + ("8" + "")))
  {
    var s := FRACTIONAL_EXAMPLE;
    FractionalExamplePieces();
    GroupFromStep(s, 8, "8", "");
    GroupFromStep(s, 7, "7", "8" + "");
    GroupFromStep(s, 6, ",6", "7" + ("8" + ""));
    GroupFromStep(s, 5, "5", ",6" + ("7" + ("8" + "")));
  }

  lemma FractionalExampleHead(tail: string)
    requires GroupFrom(FRACTIONAL_EXAMPLE, 5) == tail
    ensures GroupFrom(FRACTIONAL_EXAMPLE, 0) == "1" + (",2" + ("3" + ("4" + ("." + tail))))
  {
    var s := FRACTIONAL_EXAMPLE;
    FractionalExamplePieces();
    GroupFromStep(s, 4, ".", tail);
    GroupFromStep(s, 3, "4", "." + tail);
    GroupFromStep(s, 2, "3", "4" + ("." + tail));
    GroupFromStep(s, 1, ",2", "3" + ("4" + ("." + tail)));
    GroupFromStep(s, 0, "1", ",2" + ("3" + ("4" + ("." + tail))));
  }

  /** The pattern is not tied to the integer part: the digits after a
      decimal point are grouped too. */
  lemma FormatNumberGroupsFraction()
    ensures FormatNumber(FRACTIONAL_EXAMPLE) == "1,234.5,678"
  {
    var tail := GroupFrom(FRACTIONAL_EXAMPLE, 5);
    FractionalExampleTail();
    FractionalExampleHead(tail);
    FractionJoin();
  }

  lemma FractionJoin()
    ensures "1" + (",2" + ("3" + ("4" + ("." + ("5" + (",6" + ("7" + ("8" + "")))))))) == "1,234.5,678"
  {
  }

  /** `formatNumber` grouping the integer part only; the fraction is kept as is. */
  function FormatNumberCorrected(s: string): (r: string)
    ensures ',' !in s ==> RemoveCommas(r) == s
    ensures '.' !in s ==> r == FormatNumber(s)
    ensures '.' in s ==> exists k :: 0 <= k < |s| && s[k] == '.' && r == FormatNumber(s[..k]) + s[k..]
  {
    match IndexOf(s, '.')
    case None => FormatNumberRemoveCommas(s); FormatNumber(s)
    case Some(k) =>
      SplitRemoveCommas(s, k);
      FormatNumber(s[..k]) + s[k..]
  }

  /** Grouping a prefix and keeping the rest still only inserts commas. */
  lemma SplitRemoveCommas(s: string, k: nat)
    requires k <= |s|
    ensures ',' !in s ==> RemoveCommas(FormatNumber(s[..k]) + s[k..]) == s
  {
    if ',' !in s {
      assert s == s[..k] + s[k..];
      FormatNumberRemoveCommas(s[..k]);
      RemoveCommasAppend(FormatNumber(s[..k]), s[k..]);
      RemoveCommasOfPlain(s[k..]);
    }
  }

  lemma {:induction false} RemoveCommasOfPlain(s: string)
    requires ',' !in s
    ensures RemoveCommas(s) == s
  {
    if s != [] {
      RemoveCommasOfPlain(s[1..]);
      assert s == [s[0]] + s[1..];
    }
  }

  lemma CorrectedFromParts(s: string, k: nat, head: string, tail: string)
    requires IndexOf(s, '.') == Some(k)
    requires FormatNumber(s[..k]) == head && s[k..] == tail
    ensures FormatNumberCorrected(s) == head + tail
  {
  }

  lemma IntegerPartOfExample()
    ensures FormatNumber(FRACTIONAL_EXAMPLE[..4]) == "1,234"
  {
    var d := FRACTIONAL_EXAMPLE[..4];
    assert d == "1234";
    FormatNumberOfDigits(d);
    assert GroupThousands(d[..1]) == d[..1];
  }

  lemma PointOfExample()
    ensures IndexOf(FRACTIONAL_EXAMPLE, '.') == Some(4)
    ensures FRACTIONAL_EXAMPLE[4..] == ".5678"
  {
    var s := FRACTIONAL_EXAMPLE;
    assert s[4] == '.' && '.' !in s[..4];
  }

  lemma ExampleJoin()
    ensures "1,234" + ".5678" == "1,234.5678"
  {
  }

  /** The corrected grouping leaves the example with a single comma. */
  lemma FormatNumberCorrectedKeepsFraction()
    ensures FormatNumberCorrected(FRACTIONAL_EXAMPLE) == "1,234.5678"
  {
    PointOfExample();
    IntegerPartOfExample();
    CorrectedFromParts(FRACTIONAL_EXAMPLE, 4, "1,234", ".5678");
    ExampleJoin();
  }
}
