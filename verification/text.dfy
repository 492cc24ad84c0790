// String helpers with the semantics of the JavaScript built-ins the site uses:
// `trim`, `trimEnd`, `toLowerCase` (on ASCII letters), `startsWith`, `includes`,
// `split` on one character, `split(/\r?\n/)`, and number-to-string conversion.
module Text {

  /**
   * The characters JavaScript's `trim` removes and its regular-expression `\s`
   * matches: WhiteSpace (tab, vertical tab, form feed, space, no-break space,
   * the byte-order mark and the Unicode space separators) and LineTerminator
   * (line feed, carriage return, line and paragraph separators).
   */
  predicate IsSpace(c: char) {
    c == ' ' || c == '\t' || c == '\n' || c == '\r' || c == '\U{000B}' || c == '\U{000C}'
    || c == '\U{00A0}' || c == '\U{1680}' || ('\U{2000}' <= c <= '\U{200A}')
    || c == '\U{2028}' || c == '\U{2029}' || c == '\U{202F}' || c == '\U{205F}'
    || c == '\U{3000}' || c == '\U{FEFF}'
  }

  /** No white space at either end. */
  predicate IsTrimmed(s: string) {
    s == [] || (!IsSpace(s[0]) && !IsSpace(s[|s| - 1]))
  }

  /** `trimStart`: the longest suffix that does not begin with white space. */
  function TrimStart(s: string): (r: string)
    ensures |r| <= |s| && r == s[|s| - |r|..]
    ensures forall i :: 0 <= i < |s| - |r| ==> IsSpace(s[i])
    ensures r == [] || !IsSpace(r[0])
  {
    if s != [] && IsSpace(s[0]) then TrimStart(s[1..]) else s
  }

  /** `trimEnd`: the longest prefix that does not end with white space. */
  function TrimEnd(s: string): (r: string)
    ensures |r| <= |s| && r == s[..|r|]
    ensures forall i :: |r| <= i < |s| ==> IsSpace(s[i])
    ensures r == [] || !IsSpace(r[|r| - 1])
  {
    if s != [] && IsSpace(s[|s| - 1]) then TrimEnd(s[..|s| - 1]) else s
  }

  /** `trim`: white space removed from both ends; what is left is a slice of `s`. */
  function Trim(s: string): (r: string)
    ensures IsTrimmed(r)
    ensures |r| <= |s|
  {
    TrimEnd(TrimStart(s))
  }

  /** `trim` only removes characters: one absent from `s` is absent from the result. */
  lemma TrimAvoids(s: string, c: char)
    requires c !in s
    ensures c !in Trim(s)
  {
    var t := TrimStart(s);
    SliceAvoids(s, |s| - |t|, |s|, c);
    SliceAvoids(t, 0, |TrimEnd(t)|, c);
  }

  /** A character in neither part is not in their concatenation. */
  lemma ConcatAvoids(a: string, b: string, c: char)
    requires c !in a && c !in b
    ensures c !in a + b
  {
  }

  /** A character absent from a string is absent from each of its slices. */
  lemma SliceAvoids(s: string, lo: nat, hi: nat, c: char)
    requires c !in s && lo <= hi <= |s|
    ensures c !in s[lo..hi]
  {
    forall k | 0 <= k < hi - lo
      ensures s[lo..hi][k] != c
    {
      assert s[lo..hi][k] == s[lo + k];
    }
  }

  /** Trimming a string that is already trimmed changes nothing. */
  lemma TrimOfTrimmed(s: string)
    requires IsTrimmed(s)
    ensures Trim(s) == s
  {
  }

  /** `trim` is idempotent. */
  lemma TrimIdempotent(s: string)
    ensures Trim(Trim(s)) == Trim(s)
  {
    TrimOfTrimmed(Trim(s));
  }

  /** Appending white space never changes what `trimStart` keeps, except to carry it along. */
  lemma {:induction false} TrimStartSnoc(p: string, c: char)
    requires IsSpace(c)
    ensures TrimStart(p + [c]) == (if TrimStart(p) == [] then [] else TrimStart(p) + [c])
    decreases |p|
  {
    if p == [] {
    } else if IsSpace(p[0]) {
      assert (p + [c])[1..] == p[1..] + [c];
      TrimStartSnoc(p[1..], c);
    } else {
    }
  }

  /** A trailing white-space character does not survive `trim`. */
  lemma TrimSnocSpace(p: string, c: char)
    requires IsSpace(c)
    ensures Trim(p + [c]) == Trim(p)
  {
    TrimStartSnoc(p, c);
    var t := TrimStart(p);
    if t != [] {
      assert (t + [c])[..|t + [c]| - 1] == t;
    }
  }

  /** ASCII `toLowerCase` of one character; every other character is kept. */
  function LowerChar(c: char): char {
    if 'A' <= c <= 'Z' then (c as int + 32) as char else c
  }

  /** `toLowerCase` restricted to ASCII letters, character by character. */
  function Lower(s: string): (r: string)
    ensures |r| == |s|
    ensures forall i :: 0 <= i < |s| ==> r[i] == LowerChar(s[i])
  {
    if s == [] then [] else [LowerChar(s[0])] + Lower(s[1..])
  }

  /** Lower-casing twice changes nothing more. */
  lemma LowerIdempotent(s: string)
    ensures Lower(Lower(s)) == Lower(s)
  {
    var l := Lower(s);
    assert forall i :: 0 <= i < |l| ==> Lower(l)[i] == l[i];
  }

  /** `/^https?:\/\//i`: the string starts with `http://` or `https://`, in any letter case. */
  predicate HasHttpScheme(s: string) {
    "http://" <= Lower(s) || "https://" <= Lower(s)
  }

  /** `s.replace(/\/$/, "")`: one trailing slash removed. */
  function DropTrailingSlash(s: string): (r: string)
    ensures s != [] && s[|s| - 1] == '/' ==> r + "/" == s
    ensures s == [] || s[|s| - 1] != '/' ==> r == s
  {
    if s != [] && s[|s| - 1] == '/' then s[..|s| - 1] else s
  }

  /** `s.includes(sub)`. */
  predicate Contains(s: string, sub: string)
    decreases |s|
  {
    sub <= s || (s != [] && Contains(s[1..], sub))
  }

  /** `s.split(sep)` for a one-character separator: never empty, no piece holds `sep`. */
  function Split(s: string, sep: char): (r: seq<string>)
    ensures |r| >= 1
    ensures forall i :: 0 <= i < |r| ==> sep !in r[i]
    decreases |s|
  {
    if s == [] then [""]
    else
      var rest := Split(s[1..], sep);
      if s[0] == sep then [""] + rest else [[s[0]] + rest[0]] + rest[1..]
  }

  /** `parts.join(sep)`, the inverse of `Split`. */
  function Join(parts: seq<string>, sep: char): string
    decreases |parts|
  {
    if parts == [] then ""
    else if |parts| == 1 then parts[0]
    else parts[0] + [sep] + Join(parts[1..], sep)
  }

  /** Splitting and joining again gives back the original string. */
  lemma {:induction false} JoinSplit(s: string, sep: char)
    ensures Join(Split(s, sep), sep) == s
    decreases |s|
  {
    if s != [] {
      var rest := Split(s[1..], sep);
      JoinSplit(s[1..], sep);
      if s[0] == sep {
        assert ([""] + rest)[1..] == rest;
      } else {
        var parts := [[s[0]] + rest[0]] + rest[1..];
        if |rest| == 1 {
          assert Join(parts, sep) == [s[0]] + rest[0];
        } else {
          assert parts[1..] == rest[1..];
          assert Join(rest, sep) == rest[0] + [sep] + Join(rest[1..], sep);
          assert Join(parts, sep) == [s[0]] + (rest[0] + [sep] + Join(rest[1..], sep));
        }
      }
    }
  }

  /** A string without the separator splits into itself. */
  lemma {:induction false} SplitNoSep(w: string, sep: char)
    requires sep !in w
    ensures Split(w, sep) == [w]
    decreases |w|
  {
    if w != [] {
      SplitNoSep(w[1..], sep);
      assert [w[0]] + w[1..] == w;
    }
  }

  /** A separator-free word followed by the separator splits off as one piece. */
  lemma {:induction false} SplitWordSep(w: string, sep: char, t: string)
    requires sep !in w
    ensures Split(w + [sep] + t, sep) == [w] + Split(t, sep)
    decreases |w|
  {
    if w == [] {
      assert w + [sep] + t == [sep] + t;
      assert ([sep] + t)[1..] == t;
    } else {
      var s := w + [sep] + t;
      assert s[1..] == w[1..] + [sep] + t;
      SplitWordSep(w[1..], sep, t);
      assert [w[0]] + w[1..] == w;
    }
  }

  /** Joining separator-free pieces and splitting again gives back the pieces. */
  lemma {:induction false} SplitJoin(parts: seq<string>, sep: char)
    requires |parts| >= 1
    requires forall i :: 0 <= i < |parts| ==> sep !in parts[i]
    ensures Split(Join(parts, sep), sep) == parts
    decreases |parts|
  {
    if |parts| == 1 {
      SplitNoSep(parts[0], sep);
    } else {
      SplitJoin(parts[1..], sep);
      SplitWordSep(parts[0], sep, Join(parts[1..], sep));
      assert [parts[0]] + parts[1..] == parts;
    }
  }

  /** The text of `s` with every white-space character dropped. */
  function NonSpace(s: string): (r: string)
    ensures |r| <= |s|
    ensures forall i :: 0 <= i < |r| ==> !IsSpace(r[i])
  {
    if s == [] then []
    else (if IsSpace(s[0]) then [] else [s[0]]) + NonSpace(s[1..])
  }

  /** Dropping white space works piece by piece. */
  lemma {:induction false} NonSpaceAppend(x: string, y: string)
    ensures NonSpace(x + y) == NonSpace(x) + NonSpace(y)
    decreases |x|
  {
    if x == [] {
      assert x + y == y;
    } else {
      var h := if IsSpace(x[0]) then [] else [x[0]];
      assert (x + y)[0] == x[0] && (x + y)[1..] == x[1..] + y;
      assert NonSpace(x + y) == h + NonSpace(x[1..] + y);
      NonSpaceAppend(x[1..], y);
      assert h + (NonSpace(x[1..]) + NonSpace(y)) == (h + NonSpace(x[1..])) + NonSpace(y);
    }
  }

  /** A string made only of white space has no other text. */
  lemma {:induction false} NonSpaceOfSpaces(s: string)
    requires forall i :: 0 <= i < |s| ==> IsSpace(s[i])
    ensures NonSpace(s) == []
    decreases |s|
  {
    if s != [] {
      NonSpaceOfSpaces(s[1..]);
    }
  }

  /** `trim` removes white space only: the other characters are all kept, in order. */
  lemma NonSpaceOfTrim(s: string)
    ensures NonSpace(Trim(s)) == NonSpace(s)
  {
    NonSpaceOfTrimStart(s);
    NonSpaceOfTrimEnd(TrimStart(s));
  }

  lemma NonSpaceOfTrimStart(s: string)
    ensures NonSpace(TrimStart(s)) == NonSpace(s)
  {
    var a := TrimStart(s);
    var lead := s[..|s| - |a|];
    assert s == lead + a;
    NonSpaceAppend(lead, a);
    NonSpaceOfSpaces(lead);
  }

  lemma NonSpaceOfTrimEnd(s: string)
    ensures NonSpace(TrimEnd(s)) == NonSpace(s)
  {
    var b := TrimEnd(s);
    var trail := s[|b|..];
    assert s == b + trail;
    NonSpaceAppend(b, trail);
    NonSpaceOfSpaces(trail);
  }

  /** `.map(s => s.trim()).filter(Boolean)`: the non-empty trimmed pieces, in order. */
  function KeepTrimmed(parts: seq<string>): (r: seq<string>)
    ensures |r| <= |parts|
    ensures forall i :: 0 <= i < |r| ==> r[i] != [] && IsTrimmed(r[i])
  {
    if parts == [] then []
    else
      var t := Trim(parts[0]);
      var rest := KeepTrimmed(parts[1..]);
      if t != [] then [t] + rest else rest
  }

  /** A character absent from every piece is absent from every kept piece. */
  lemma {:induction false} KeepTrimmedAvoids(parts: seq<string>, c: char)
    requires forall i :: 0 <= i < |parts| ==> c !in parts[i]
    ensures forall i :: 0 <= i < |KeepTrimmed(parts)| ==> c !in KeepTrimmed(parts)[i]
  {
    if parts != [] {
      TrimAvoids(parts[0], c);
      KeepTrimmedAvoids(parts[1..], c);
    }
  }

  /** A string is kept exactly when it is the non-empty trim of some piece. */
  lemma {:induction false} KeepTrimmedMembers(parts: seq<string>, x: string)
    ensures x in KeepTrimmed(parts) <==> x != [] && exists p :: p in parts && Trim(p) == x
    decreases |parts|
  {
    if parts != [] {
      KeepTrimmedMembers(parts[1..], x);
      assert forall p :: p in parts <==> p == parts[0] || p in parts[1..];
    }
  }

  /** Pieces that are already non-empty and trimmed pass through unchanged. */
  lemma {:induction false} KeepTrimmedOfClean(parts: seq<string>)
    requires forall i :: 0 <= i < |parts| ==> parts[i] != [] && IsTrimmed(parts[i])
    ensures KeepTrimmed(parts) == parts
  {
    if parts != [] {
      TrimOfTrimmed(parts[0]);
      KeepTrimmedOfClean(parts[1..]);
      assert [parts[0]] + parts[1..] == parts;
    }
  }

  /** `s.split(sep).map(trim).filter(Boolean)`. */
  function Pieces(s: string, sep: char): (r: seq<string>)
    ensures forall i :: 0 <= i < |r| ==> r[i] != [] && IsTrimmed(r[i]) && sep !in r[i]
  {
    KeepTrimmedAvoids(Split(s, sep), sep);
    KeepTrimmed(Split(s, sep))
  }

  /** Non-empty trimmed pieces joined by the separator come back out of `Pieces`. */
  lemma PiecesOfJoin(xs: seq<string>, sep: char)
    requires forall i :: 0 <= i < |xs| ==> xs[i] != [] && IsTrimmed(xs[i]) && sep !in xs[i]
    ensures Pieces(Join(xs, sep), sep) == xs
  {
    if xs == [] {
      assert Split("", sep) == [""];
      assert Trim("") == "";
    } else {
      SplitJoin(xs, sep);
      KeepTrimmedOfClean(xs);
    }
  }

  /** One carriage return dropped from the end of a piece followed by a line feed. */
  function DropCR(p: string): (r: string) {
    if p != [] && p[|p| - 1] == '\r' then p[..|p| - 1] else p
  }

  /** Every piece except the last was followed by a line feed and loses one carriage return. */
  function DropCRs(parts: seq<string>): (r: seq<string>)
    ensures |r| == |parts|
  {
    if |parts| <= 1 then parts else [DropCR(parts[0])] + DropCRs(parts[1..])
  }

  /** `s.split(/\r?\n/)`: the lines of `s`, with CRLF and LF both ending a line. */
  function SplitLines(s: string): (r: seq<string>)
    ensures |r| >= 1
  {
    DropCRs(Split(s, '\n'))
  }

  /** `s.split(/\r?\n/).map(trim).filter(Boolean)`: the non-blank lines, trimmed. */
  function TrimmedLines(s: string): (r: seq<string>)
    ensures forall i :: 0 <= i < |r| ==> r[i] != [] && IsTrimmed(r[i])
  {
    KeepTrimmed(SplitLines(s))
  }

  lemma {:induction false} KeepTrimmedDropCRs(parts: seq<string>)
    ensures KeepTrimmed(DropCRs(parts)) == KeepTrimmed(parts)
    decreases |parts|
  {
    if |parts| > 1 {
      var p := parts[0];
      if p != [] && p[|p| - 1] == '\r' {
        assert p == p[..|p| - 1] + ['\r'];
        TrimSnocSpace(p[..|p| - 1], '\r');
      }
      KeepTrimmedDropCRs(parts[1..]);
      assert DropCRs(parts)[1..] == DropCRs(parts[1..]);
    }
  }

  /**
   * Because a carriage return is white space, trimming the lines of `split(/\r?\n/)`
   * gives the same pieces as trimming the pieces of a plain split on line feeds;
   * so non-blank trimmed lines joined by "\n" come back out unchanged.
   */
  lemma TrimmedLinesOfJoin(xs: seq<string>)
    requires forall i :: 0 <= i < |xs| ==> xs[i] != [] && IsTrimmed(xs[i]) && '\n' !in xs[i]
    ensures TrimmedLines(Join(xs, '\n')) == xs
  {
    KeepTrimmedDropCRs(Split(Join(xs, '\n'), '\n'));
    PiecesOfJoin(xs, '\n');
  }

  /** The decimal digit for `d`. */
  function DigitChar(d: nat): char
    requires d < 10
  {
    ('0' as int + d) as char
  }

  /** `String(n)` for a non-negative integer: decimal digits, no leading zero. */
  function NatToString(n: nat): (r: string)
    ensures |r| >= 1
    ensures forall i :: 0 <= i < |r| ==> '0' <= r[i] <= '9'
    ensures |r| > 1 ==> r[0] != '0'
    decreases n
  {
    if n < 10 then [DigitChar(n)] else NatToString(n / 10) + [DigitChar(n % 10)]
  }

  /** The number a decimal digit string denotes. */
  function DecimalValue(s: string): nat
    requires forall i :: 0 <= i < |s| ==> '0' <= s[i] <= '9'
  {
    if s == [] then 0 else DecimalValue(s[..|s| - 1]) * 10 + (s[|s| - 1] as int - '0' as int)
  }

  /** `NatToString` writes exactly the number it is given. */
  lemma {:induction false} NatToStringValue(n: nat)
    ensures DecimalValue(NatToString(n)) == n
    decreases n
  {
    if n >= 10 {
      NatToStringValue(n / 10);
      var s := NatToString(n);
      assert s[..|s| - 1] == NatToString(n / 10);
    }
  }
}
