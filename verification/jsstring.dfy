/** The JavaScript string operations the content script uses to turn a
    button's text into a move label: `String.prototype.trim` and
    `String.prototype.split('\n')`. `IndexOf` and `Join` are modelling
    helpers: the first defines `Split`, the second states its round trip.
    Strings are sequences of Unicode code points, `seq<char>`. */
module JsString {

  /** ECMAScript's WhiteSpace and LineTerminator code points: what `trim`
      removes from both ends of a string. */
  predicate IsWhitespace(c: char) {
    || c == '\t' || c == '\n' || c == '\U{000B}' || c == '\U{000C}' || c == '\r'
    || c == ' ' || c == '\U{00A0}' || c == '\U{1680}'
    || ('\U{2000}' <= c <= '\U{200A}')
    || c == '\U{2028}' || c == '\U{2029}' || c == '\U{202F}' || c == '\U{205F}'
    || c == '\U{3000}' || c == '\U{FEFF}'
  }

  /** Every character of `s` is whitespace (vacuously true of ""). */
  predicate AllSpace(s: string) {
    forall i :: 0 <= i < |s| ==> IsWhitespace(s[i])
  }

  /** Every character of `s` outside the index range [lo, hi) is whitespace. */
  predicate SpaceOutside(s: string, lo: int, hi: int) {
    forall i :: 0 <= i < |s| && (i < lo || hi <= i) ==> IsWhitespace(s[i])
  }

  /** The number of whitespace characters `s` starts with. */
  function LeadingSpace(s: string): (n: nat)
    ensures n <= |s|
    ensures forall i :: 0 <= i < n ==> IsWhitespace(s[i])
    ensures n < |s| ==> !IsWhitespace(s[n])
  {
    if s == [] || !IsWhitespace(s[0]) then 0
    else 1 + LeadingSpace(s[1..])
  }

  /** The number of whitespace characters `s` ends with. */
  function TrailingSpace(s: string): (n: nat)
    ensures n <= |s|
    ensures forall i :: |s| - n <= i < |s| ==> IsWhitespace(s[i])
    ensures n < |s| ==> !IsWhitespace(s[|s| - n - 1])
  {
    if s == [] || !IsWhitespace(s[|s| - 1]) then 0
    else 1 + TrailingSpace(s[..|s| - 1])
  }

  /** JavaScript's `s.trim()`. The result is the slice of `s` left once the
      whitespace is cut from both ends: everything around it is whitespace,
      it neither starts nor ends with whitespace, and it is empty exactly
      when `s` is all whitespace. */
  function Trim(s: string): (r: string)
    ensures LeadingSpace(s) + |r| <= |s|
    ensures r == s[LeadingSpace(s)..LeadingSpace(s) + |r|]
    ensures SpaceOutside(s, LeadingSpace(s), LeadingSpace(s) + |r|)
    ensures r == [] <==> AllSpace(s)
    ensures r != [] ==> !IsWhitespace(r[0]) && !IsWhitespace(r[|r| - 1])
  {
    var a := LeadingSpace(s);
    if a == |s| then []
    else s[a..|s| - TrailingSpace(s)]
  }

  /** Whatever way `s` is cut into whitespace, a middle part that neither
      starts nor ends with whitespace, and whitespace again, the middle part
      is `Trim(s)`: the trimmed text is determined by `s` alone. */
  lemma TrimUnique(s: string, i: nat, j: nat)
    requires i <= j <= |s|
    requires SpaceOutside(s, i, j)
    requires i < j ==> !IsWhitespace(s[i]) && !IsWhitespace(s[j - 1])
    ensures Trim(s) == s[i..j]
  {
    var r := Trim(s);
    var a := LeadingSpace(s);
    if i < j {
      assert a == i;
      assert a + |r| == j;
    }
  }

  /** Trimming twice is trimming once. */
  lemma TrimIdempotent(s: string)
    ensures Trim(Trim(s)) == Trim(s)
  {
    var r := Trim(s);
    TrimUnique(r, 0, |r|);
  }

  /** JavaScript's `s.indexOf(c)`: the first position of `c` in `s`, or -1
      when `c` does not occur. */
  function IndexOf(s: string, c: char): (i: int)
    ensures -1 <= i < |s|
    ensures i == -1 <==> c !in s
    ensures 0 <= i ==> s[i] == c && c !in s[..i]
  {
    if s == [] then -1
    else if s[0] == c then 0
    else
      var j := IndexOf(s[1..], c);
      assert s[1..][..j + 1] == s[..j + 2][1..];
      if j < 0 then -1 else j + 1
  }

  /** `parts.join('\n')` */
  function Join(parts: seq<string>): string
    requires |parts| >= 1
  {
    if |parts| == 1 then parts[0]
    else parts[0] + "\n" + Join(parts[1..])
  }

  /** JavaScript's `s.split('\n')`: always at least one piece, no piece holds
      a newline, and joining the pieces with newlines gives back `s`. */
  function Split(s: string): (parts: seq<string>)
    ensures |parts| >= 1
    ensures forall k :: 0 <= k < |parts| ==> '\n' !in parts[k]
    ensures Join(parts) == s
    decreases |s|
  {
    var i := IndexOf(s, '\n');
    if i < 0 then [s]
    else
      var rest := Split(s[i + 1..]);
      var parts := [s[..i]] + rest;
      assert parts[1..] == rest;
      assert s == s[..i] + "\n" + s[i + 1..];
      parts
  }

  /** The part of `s` before its first newline, or all of `s` when it has
      none. The three ensures say exactly that: a prefix of `s`, free of
      newlines, that stops at a newline or at the end of `s`. */
  function FirstLine(s: string): (r: string)
    ensures r <= s
    ensures '\n' !in r
    ensures |r| < |s| ==> s[|r|] == '\n'
  {
    if s == [] || s[0] == '\n' then []
    else [s[0]] + FirstLine(s[1..])
  }

  /** The three properties of `FirstLine` single out its result. */
  lemma FirstLineUnique(s: string, t: string)
    requires t <= s
    requires '\n' !in t
    requires |t| < |s| ==> s[|t|] == '\n'
    ensures FirstLine(s) == t
  {
  }

  /** `FirstLine(s)` is `s.split('\n')[0]`. */
  lemma FirstLineIsFirstPiece(s: string)
    ensures FirstLine(s) == Split(s)[0]
  {
    var i := IndexOf(s, '\n');
    var head := if i < 0 then s else s[..i];
    assert Split(s)[0] == head by {
      if 0 <= i {
        assert Split(s) == [s[..i]] + Split(s[i + 1..]);
      }
    }
    assert FirstLine(s) == head by {
      FirstLineUnique(s, head);
    }
  }

  /** The move label of a button whose text is `text`:
      `text.trim().split('\n')[0]`. */
  function Label(text: string): string {
    FirstLine(Trim(text))
  }

  /** A label holds no newline and does not start with whitespace; it is
      empty exactly when the button text is all whitespace; and it is the
      whole trimmed text exactly when that text is a single line. */
  lemma LabelShape(text: string)
    ensures '\n' !in Label(text)
    ensures Label(text) != [] ==> !IsWhitespace(Label(text)[0])
    ensures Label(text) == [] <==> AllSpace(text)
    ensures Label(text) == Trim(text) <==> '\n' !in Trim(text)
  {
    var t := Trim(text);
    var l := Label(text);
    if t != [] {
      assert t[0] != '\n';
      assert l[0] == t[0];
    }
    if '\n' !in t {
      FirstLineUnique(t, t);
    }
  }
}
