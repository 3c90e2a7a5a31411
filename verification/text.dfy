/** The handful of JavaScript string operations the app relies on, over strings
    as sequences of Unicode scalar values: `trim`, `split` on a one-character
    separator, `toLowerCase` on ASCII letters, and `replace` of the first
    occurrence of a character. */
module Text {

  /** The characters `String.prototype.trim` removes: the ECMAScript WhiteSpace
      set (tab, vertical tab, form feed, space, no-break space, byte order mark
      and the Unicode space separators) plus the four line terminators. */
  predicate IsJsWhitespace(c: char)
  {
    var n := c as int;
    || n == 0x09 || n == 0x0A || n == 0x0B || n == 0x0C || n == 0x0D
    || n == 0x20 || n == 0xA0 || n == 0x1680
    || (0x2000 <= n <= 0x200A)
    || n == 0x2028 || n == 0x2029 || n == 0x202F || n == 0x205F
    || n == 0x3000 || n == 0xFEFF
  }

  /** Neither the first nor the last character is whitespace. */
  predicate IsTrimmed(s: string)
  {
    |s| > 0 ==> !IsJsWhitespace(s[0]) && !IsJsWhitespace(s[|s| - 1])
  }

  /** `trimStart`: drops leading characters, and `TrimStartCutsWhitespace` says they
      are whitespace. */
  function TrimStart(s: string): (r: string)
    ensures |r| <= |s| && r == s[|s| - |r|..]
    ensures |r| > 0 ==> !IsJsWhitespace(r[0])
  {
    if |s| > 0 && IsJsWhitespace(s[0]) then TrimStart(s[1..]) else s
  }

  lemma {:induction false} TrimStartCutsWhitespace(s: string)
    ensures forall i :: 0 <= i < |s| - |TrimStart(s)| ==> IsJsWhitespace(s[i])
  {
    if |s| > 0 && IsJsWhitespace(s[0]) {
      TrimStartCutsWhitespace(s[1..]);
      forall i | 1 <= i < |s| - |TrimStart(s)|
        ensures IsJsWhitespace(s[i])
      {
        assert s[i] == s[1..][i - 1];
      }
    }
  }

  /** `trimEnd`: drops trailing characters, and `TrimEndCutsWhitespace` says they are
      whitespace. */
  function TrimEnd(s: string): (r: string)
    ensures |r| <= |s| && r == s[..|r|]
    ensures |r| > 0 ==> !IsJsWhitespace(r[|r| - 1])
  {
    if |s| > 0 && IsJsWhitespace(s[|s| - 1]) then TrimEnd(s[..|s| - 1]) else s
  }

  lemma {:induction false} TrimEndCutsWhitespace(s: string)
    ensures forall i :: |TrimEnd(s)| <= i < |s| ==> IsJsWhitespace(s[i])
  {
    if |s| > 0 && IsJsWhitespace(s[|s| - 1]) {
      TrimEndCutsWhitespace(s[..|s| - 1]);
      forall i | |TrimEnd(s)| <= i < |s| - 1
        ensures IsJsWhitespace(s[i])
      {
        assert s[i] == s[..|s| - 1][i];
      }
    }
  }

  /** `trim`: whitespace at neither edge; `TrimSlice` says the result is a slice of the
      input and `TrimCutsWhitespace` that what is cut off is whitespace. */
  function Trim(s: string): (r: string)
    ensures IsTrimmed(r)
    ensures |r| <= |s|
  {
    var t := TrimStart(s);
    TrimEdgesTrimmed(t);
    TrimEnd(t)
  }

  /** `trim` keeps a slice of the input, starting after the leading whitespace. */
  lemma TrimSlice(s: string)
    ensures var t := TrimStart(s); var lead := |s| - |t|;
      |Trim(s)| <= |t| <= |s| && Trim(s) == s[lead..lead + |Trim(s)|]
  {
    var t := TrimStart(s);
    var r := TrimEnd(t);
    var lead := |s| - |t|;
    assert t == s[lead..];
    assert r == t[..|r|];
  }

  /** Everything `trim` cuts off, before and after the slice it keeps, is whitespace. */
  lemma TrimCutsWhitespace(s: string)
    ensures var lead := |s| - |TrimStart(s)|;
      && (forall i :: 0 <= i < lead ==> IsJsWhitespace(s[i]))
      && (forall i :: lead + |Trim(s)| <= i < |s| ==> IsJsWhitespace(s[i]))
  {
    var t := TrimStart(s);
    var lead := |s| - |t|;
    TrimStartCutsWhitespace(s);
    TrimEndCutsWhitespace(t);
    forall i | lead + |Trim(s)| <= i < |s|
      ensures IsJsWhitespace(s[i])
    {
      assert s[i] == t[i - lead];
    }
  }

  /** `trimEnd` of a string that `trimStart` produced has whitespace at neither edge. */
  lemma TrimEdgesTrimmed(t: string)
    requires |t| > 0 ==> !IsJsWhitespace(t[0])
    ensures IsTrimmed(TrimEnd(t))
  {
    var r := TrimEnd(t);
    assert |r| > 0 ==> r[0] == t[0];
  }

  /** A string without whitespace edges is left alone by `trim`. */
  lemma TrimKeepsTrimmed(s: string)
    requires IsTrimmed(s)
    ensures Trim(s) == s
  {
    assert TrimStart(s) == s;
  }

  /** Trimming twice is trimming once. */
  lemma TrimIdempotent(s: string)
    ensures Trim(Trim(s)) == Trim(s)
  {
    TrimKeepsTrimmed(Trim(s));
  }

  /** `s.split(sep)` for a one-character separator: the pieces between
      separators, in order; a string without separator is one piece, and the
      empty string splits into one empty piece. */
  function Split(s: string, sep: char): (r: seq<string>)
    ensures |r| >= 1
    ensures forall k :: 0 <= k < |r| ==> sep !in r[k]
  {
    if |s| == 0 then [""]
    else
      var rest := Split(s[1..], sep);
      if s[0] == sep then [""] + rest
      else [[s[0]] + rest[0]] + rest[1..]
  }

  /** `pieces.join(sep)`: the partner of `Split`. */
  function Join(pieces: seq<string>, sep: char): (r: string)
    ensures |pieces| == 1 ==> r == pieces[0]
  {
    if |pieces| == 0 then ""
    else if |pieces| == 1 then pieces[0]
    else pieces[0] + [sep] + Join(pieces[1..], sep)
  }

  /** Splitting and joining back with the same separator gives the input. */
  lemma {:induction false} JoinSplit(s: string, sep: char)
    ensures Join(Split(s, sep), sep) == s
  {
    if |s| > 0 {
      var rest := Split(s[1..], sep);
      JoinSplit(s[1..], sep);
      if s[0] == sep {
        assert Split(s, sep)[1..] == rest;
      } else {
        var r := Split(s, sep);
        if |rest| == 1 {
          assert r == [[s[0]] + rest[0]];
        } else {
          assert r[1..] == rest[1..];
          assert Join(rest, sep) == rest[0] + [sep] + Join(rest[1..], sep);
        }
      }
    }
  }

  /** Joining separator-free pieces and splitting again gives the pieces back. */
  lemma {:induction false} SplitJoin(pieces: seq<string>, sep: char)
    requires |pieces| >= 1
    requires forall k :: 0 <= k < |pieces| ==> sep !in pieces[k]
    ensures Split(Join(pieces, sep), sep) == pieces
    decreases |pieces|, |pieces[0]|
  {
    var p := pieces[0];
    if |p| > 0 {
      // Peel the first character of the first piece.
      var shorter := [p[1..]] + pieces[1..];
      SplitJoin(shorter, sep);
      assert Join(pieces, sep) == [p[0]] + Join(shorter, sep) by {
        if |pieces| > 1 {
          assert Join(shorter, sep) == p[1..] + [sep] + Join(pieces[1..], sep);
        }
      }
      assert [p[0]] + p[1..] == p;
      assert Join(pieces, sep)[1..] == Join(shorter, sep);
    } else if |pieces| > 1 {
      SplitJoin(pieces[1..], sep);
      assert Join(pieces, sep) == [sep] + Join(pieces[1..], sep);
      assert Join(pieces, sep)[1..] == Join(pieces[1..], sep);
    }
  }

  /** ASCII `toLowerCase`: 'A'..'Z' become 'a'..'z', everything else is kept. */
  function ToLowerChar(c: char): (d: char)
    ensures 'A' <= c <= 'Z' ==> 'a' <= d <= 'z' && d as int - c as int == 32
    ensures !('A' <= c <= 'Z') ==> d == c
  {
    if 'A' <= c <= 'Z' then (c as int + 32) as char else c
  }

  /** `toLowerCase` restricted to ASCII letters, character by character. */
  function ToLower(s: string): (r: string)
    ensures |r| == |s|
    ensures forall i :: 0 <= i < |s| ==> r[i] == ToLowerChar(s[i])
  {
    if |s| == 0 then "" else [ToLowerChar(s[0])] + ToLower(s[1..])
  }

  /** Index of the first occurrence of `c`, or `|s|` when there is none. */
  function IndexOf(s: string, c: char): (i: nat)
    ensures i <= |s|
    ensures i < |s| ==> s[i] == c
    ensures forall j :: 0 <= j < i ==> s[j] != c
  {
    if |s| == 0 then 0
    else if s[0] == c then 0
    else 1 + IndexOf(s[1..], c)
  }

  /** `s.replace(c, repl)` with a one-character string pattern: only the first
      occurrence is replaced, and a string without `c` is returned as is. */
  function ReplaceFirst(s: string, c: char, repl: string): (r: string)
    ensures c !in s ==> r == s
    ensures c in s ==> var i := IndexOf(s, c); r == s[..i] + repl + s[i + 1..]
  {
    var i := IndexOf(s, c);
    if i == |s| then s else s[..i] + repl + s[i + 1..]
  }

  /** Replacing the first `c` by another character removes exactly one `c`, if any. */
  lemma ReplaceFirstCount(s: string, c: char, d: char)
    requires c != d
    ensures multiset(ReplaceFirst(s, c, [d]))[c] == multiset(s)[c] - (if c in s then 1 else 0)
  {
    if c in s {
      var i := IndexOf(s, c);
      assert s == s[..i] + [c] + s[i + 1..];
    }
  }
}
