/** The JavaScript string built-ins the client code leans on: `trim`,
    `toUpperCase` / `toLowerCase`, `includes`, `split`, `slice(0, n)`, and
    the decimal rendering of a non-negative integer in a template string.
    Strings are sequences of code points (not UTF-16 units) and case mapping
    covers the ASCII letters only. */
module JsText {
  import opened Wrappers

  /** The characters `String.prototype.trim` and `Number(...)` skip: the
      WhiteSpace and LineTerminator code points of ECMAScript. */
  predicate IsWhitespace(c: char) {
    || c == ' ' || c == '\t' || c == '\n' || c == '\r'
    || c == '\U{000B}' || c == '\U{000C}' || c == '\U{00A0}' || c == '\U{FEFF}'
    || c == '\U{1680}' || ('\U{2000}' <= c <= '\U{200A}')
    || c == '\U{2028}' || c == '\U{2029}' || c == '\U{202F}' || c == '\U{205F}'
    || c == '\U{3000}'
  }

  /** An optional string tested for truthiness: present and non-empty. */
  predicate Filled(s: Option<string>) {
    s.Some? && s.value != ""
  }

  predicate AllWhitespace(s: string) {
    forall i :: 0 <= i < |s| ==> IsWhitespace(s[i])
  }

  predicate OccursAt(s: string, t: string, i: int) {
    0 <= i && i + |t| <= |s| && s[i..i + |t|] == t
  }

  /** `s.trim()`: drops whitespace from both ends. */
  function Trim(s: string): (r: string)
    ensures |r| <= |s|
    ensures r != [] ==> !IsWhitespace(r[0]) && !IsWhitespace(r[|r| - 1])
    decreases |s|
  {
    if s != [] && IsWhitespace(s[0]) then Trim(s[1..])
    else if s != [] && IsWhitespace(s[|s| - 1]) then Trim(s[..|s| - 1])
    else s
  }

  /** What `trim` keeps is the infix of `s` between its leading and trailing
      whitespace; it is empty exactly when `s` is all whitespace. */
  lemma TrimSpec(s: string)
    ensures var r := Trim(s);
      exists k :: OccursAt(s, r, k) && AllWhitespace(s[..k]) && AllWhitespace(s[k + |r|..])
    ensures Trim(s) == [] <==> AllWhitespace(s)
  {
    var k := TrimInfix(s);
    assert OccursAt(s, Trim(s), k);
    TrimBlank(s);
  }

  /** Where the infix `trim` keeps starts. */
  lemma {:induction false} TrimInfix(s: string) returns (k: nat)
    ensures OccursAt(s, Trim(s), k) && AllWhitespace(s[..k]) && AllWhitespace(s[k + |Trim(s)|..])
    decreases |s|
  {
    if s != [] && IsWhitespace(s[0]) {
      var j := TrimInfix(s[1..]);
      InfixAfterLead(s, Trim(s[1..]), j);
      k := j + 1;
    } else if s != [] && IsWhitespace(s[|s| - 1]) {
      k := TrimInfix(s[..|s| - 1]);
      InfixBeforeTrail(s, Trim(s[..|s| - 1]), k);
    } else {
      k := 0;
      assert s[..0] == [] && s[0..|s|] == s && s[|s|..] == [];
    }
  }

  /** An infix of `s[1..]` between whitespace, behind a leading whitespace
      character, is an infix of `s` between whitespace. */
  lemma InfixAfterLead(s: string, r: string, j: nat)
    requires s != [] && IsWhitespace(s[0])
    requires OccursAt(s[1..], r, j) && AllWhitespace(s[1..][..j]) && AllWhitespace(s[1..][j + |r|..])
    ensures OccursAt(s, r, j + 1) && AllWhitespace(s[..j + 1]) && AllWhitespace(s[j + 1 + |r|..])
  {
    var t := s[1..];
    assert s[j + 1..j + 1 + |r|] == t[j..j + |r|];
    assert s[j + 1 + |r|..] == t[j + |r|..];
    assert s[..j + 1] == [s[0]] + t[..j];
    AllWhitespaceCons(s[0], t[..j]);
  }

  /** An infix of `s` without its last character between whitespace, when
      that character is whitespace, is an infix of `s` between whitespace. */
  lemma InfixBeforeTrail(s: string, r: string, k: nat)
    requires s != [] && IsWhitespace(s[|s| - 1])
    requires var t := s[..|s| - 1];
      OccursAt(t, r, k) && AllWhitespace(t[..k]) && AllWhitespace(t[k + |r|..])
    ensures OccursAt(s, r, k) && AllWhitespace(s[..k]) && AllWhitespace(s[k + |r|..])
  {
    var t := s[..|s| - 1];
    assert s[k..k + |r|] == t[k..k + |r|];
    assert s[..k] == t[..k];
    assert s[k + |r|..] == t[k + |r|..] + [s[|s| - 1]];
    AllWhitespaceSnoc(t[k + |r|..], s[|s| - 1]);
  }

  /** `trim` leaves nothing exactly from an all-whitespace string. */
  lemma {:induction false} TrimBlank(s: string)
    ensures Trim(s) == [] <==> AllWhitespace(s)
    decreases |s|
  {
    if s != [] && IsWhitespace(s[0]) {
      TrimBlank(s[1..]);
      assert s == [s[0]] + s[1..];
      AllWhitespaceCons(s[0], s[1..]);
    } else if s != [] && IsWhitespace(s[|s| - 1]) {
      TrimBlank(s[..|s| - 1]);
      assert s == s[..|s| - 1] + [s[|s| - 1]];
      AllWhitespaceSnoc(s[..|s| - 1], s[|s| - 1]);
    }
  }

  lemma AllWhitespaceCons(c: char, t: string)
    requires IsWhitespace(c)
    ensures AllWhitespace([c] + t) <==> AllWhitespace(t)
  {
    assert forall i :: 0 <= i < |t| ==> ([c] + t)[i + 1] == t[i];
  }

  lemma AllWhitespaceSnoc(t: string, c: char)
    requires IsWhitespace(c)
    ensures AllWhitespace(t + [c]) <==> AllWhitespace(t)
  {
    assert forall i :: 0 <= i < |t| ==> (t + [c])[i] == t[i];
  }

  function UpperChar(c: char): char {
    if 'a' <= c <= 'z' then (c as int - 32) as char else c
  }

  function LowerChar(c: char): char {
    if 'A' <= c <= 'Z' then (c as int + 32) as char else c
  }

  /** `s.toUpperCase()` on ASCII letters. */
  function Upper(s: string): (r: string)
    ensures |r| == |s|
    ensures forall i :: 0 <= i < |s| ==> r[i] == UpperChar(s[i])
  {
    if s == [] then [] else [UpperChar(s[0])] + Upper(s[1..])
  }

  /** `s.toLowerCase()` on ASCII letters. */
  function Lower(s: string): (r: string)
    ensures |r| == |s|
    ensures forall i :: 0 <= i < |s| ==> r[i] == LowerChar(s[i])
  {
    if s == [] then [] else [LowerChar(s[0])] + Lower(s[1..])
  }

  /** `s.slice(0, n)` / `s.substring(0, n)` for n >= 0. */
  function Prefix(s: string, n: nat): (r: string)
    ensures |r| == if n < |s| then n else |s|
    ensures r == s[..|r|]
  {
    if n < |s| then s[..n] else s
  }

  /** `s.includes(t)`. */
  predicate Contains(s: string, t: string) {
    exists i :: 0 <= i <= |s| - |t| && OccursAt(s, t, i)
  }

  /** `s.split(c)` for a one-character separator: the pieces between the
      occurrences of `c`, empty pieces included. */
  function SplitOn(s: string, c: char): (r: seq<string>)
    ensures |r| >= 1
    ensures |r| >= 2 <==> c in s
    ensures forall w :: w in r ==> c !in w
  {
    if s == [] then [""]
    else
      var rest := SplitOn(s[1..], c);
      if s[0] == c then [""] + rest else [[s[0]] + rest[0]] + rest[1..]
  }

  lemma {:induction false} SplitOnAbsent(s: string, c: char)
    requires c !in s
    ensures SplitOn(s, c) == [s]
  {
    if s != [] {
      SplitOnAbsent(s[1..], c);
      assert [s[0]] + s[1..] == s;
    }
  }

  /** The first piece of a split starts with the first character, when that
      character is not the separator. */
  lemma SplitOnFirst(s: string, c: char)
    requires s != [] && s[0] != c
    ensures SplitOn(s, c)[0] != [] && SplitOn(s, c)[0][0] == s[0]
  {
  }

  /** The last piece of a split is everything after the last separator. */
  lemma {:induction false} SplitOnLast(s: string, c: char, j: nat)
    requires j < |s| && s[j] == c && c !in s[j + 1..]
    ensures var r := SplitOn(s, c); r[|r| - 1] == s[j + 1..]
  {
    var rest := SplitOn(s[1..], c);
    if j == 0 {
      SplitOnAbsent(s[1..], c);
    } else {
      assert s[1..][j - 1] == c && s[1..][j..] == s[j + 1..];
      SplitOnLast(s[1..], c, j - 1);
      assert c in s[1..];
    }
  }

  /** Where the last piece of `s.split(sep)` starts, for a non-empty
      separator. JavaScript splits at the occurrences it finds scanning left
      to right, without overlap; the last piece starts just after the last
      occurrence that scan finds, or at 0 when it finds none. */
  function LastPieceStart(s: string, sep: string): (k: nat)
    requires sep != []
    ensures k <= |s|
    decreases |s|
  {
    if s == [] then 0
    else if OccursAt(s, sep, 0) then |sep| + LastPieceStart(s[|sep|..], sep)
    else
      var k := LastPieceStart(s[1..], sep);
      if k == 0 then 0 else 1 + k
  }

  /** `s.split(sep).pop()` for a non-empty separator. */
  function LastPiece(s: string, sep: string): (r: string)
    requires sep != []
    ensures |r| <= |s| && r == s[|s| - |r|..]
  {
    s[LastPieceStart(s, sep)..]
  }

  /** The scan finds an occurrence exactly when there is one; the piece
      after the last one it finds holds none. */
  lemma {:induction false} LastPieceStartSpec(s: string, sep: string)
    requires sep != []
    ensures var k := LastPieceStart(s, sep);
      && (k == 0 <==> !Contains(s, sep))
      && (k > 0 ==> k >= |sep| && OccursAt(s, sep, k - |sep|))
      && !Contains(s[k..], sep)
    decreases |s|
  {
    var k := LastPieceStart(s, sep);
    if s == [] {
      assert !OccursAt(s, sep, 0);
      NoOccurrenceAtAll(s, sep);
    } else if OccursAt(s, sep, 0) {
      var t := s[|sep|..];
      LastPieceStartSpec(t, sep);
      var j := LastPieceStart(t, sep);
      assert s[k..] == t[j..];
      if j > 0 {
        ShiftOccurrence(s, sep, |sep|, j - |sep|);
      }
    } else {
      var t := s[1..];
      LastPieceStartSpec(t, sep);
      var j := LastPieceStart(t, sep);
      if j == 0 {
        NoOccurrenceAtAll(s, sep);
        assert s[k..] == s;
      } else {
        assert s[k..] == t[j..];
        ShiftOccurrence(s, sep, 1, j - |sep|);
      }
    }
  }

  /** The last piece holds no separator; it is the whole string when there
      is no separator, and otherwise it follows an occurrence of one. */
  lemma LastPieceSpec(s: string, sep: string)
    requires sep != []
    ensures !Contains(LastPiece(s, sep), sep)
    ensures !Contains(s, sep) ==> LastPiece(s, sep) == s
    ensures Contains(s, sep) ==> OccursAt(s, sep, |s| - |LastPiece(s, sep)| - |sep|)
  {
    LastPieceStartSpec(s, sep);
    if !Contains(s, sep) {
      assert s[0..] == s;
    }
  }

  /** An occurrence in a suffix `s[d..]` is an occurrence in `s`. */
  lemma ShiftOccurrence(s: string, sep: string, d: nat, i: int)
    requires d <= |s| && OccursAt(s[d..], sep, i)
    ensures OccursAt(s, sep, i + d)
  {
    assert s[d..][i..i + |sep|] == s[i + d..i + d + |sep|];
  }

  lemma NoOccurrenceAtAll(s: string, sep: string)
    requires !OccursAt(s, sep, 0)
    requires s == [] || !Contains(s[1..], sep)
    ensures !Contains(s, sep)
  {
    forall i | OccursAt(s, sep, i) ensures false {
      assert i > 0;
      assert s[1..][i - 1..i - 1 + |sep|] == s[i..i + |sep|];
      assert OccursAt(s[1..], sep, i - 1);
    }
  }

  function DigitChar(d: nat): (c: char)
    requires d < 10
    ensures '0' <= c <= '9'
  {
    ('0' as int + d) as char
  }

  predicate IsDecimalDigit(c: char) {
    '0' <= c <= '9'
  }

  /** A non-negative integer in a template string: its decimal digits, with
      no leading zero. */
  function NatToString(n: nat): (r: string)
    ensures r != []
    ensures forall i :: 0 <= i < |r| ==> IsDecimalDigit(r[i])
    ensures |r| > 1 ==> r[0] != '0'
  {
    if n < 10 then [DigitChar(n)] else NatToString(n / 10) + [DigitChar(n % 10)]
  }
}
