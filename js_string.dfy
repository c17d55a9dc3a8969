/** JavaScript string operations the services rely on (`trim`, `includes`,
    `startsWith`, `endsWith`, `split`, `join`, `toLowerCase`, number to string),
    stated over Dafny strings of Unicode scalar values. */
module JsString {

  /** ECMAScript WhiteSpace and LineTerminator code points: the set removed by
      `String.prototype.trim` and matched by the regular-expression class `\s`. */
  predicate IsSpace(c: char)
  {
    || c == '\t' || c == '\n' || c == '\U{000B}' || c == '\U{000C}' || c == '\r'
    || c == ' ' || c == '\U{00A0}' || c == '\U{1680}'
    || ('\U{2000}' <= c <= '\U{200A}')
    || c == '\U{2028}' || c == '\U{2029}' || c == '\U{202F}' || c == '\U{205F}'
    || c == '\U{3000}' || c == '\U{FEFF}'
  }

  function TrimStart(s: string): (r: string)
    ensures |r| <= |s|
  {
    if |s| > 0 && IsSpace(s[0]) then TrimStart(s[1..]) else s
  }

  function TrimEnd(s: string): (r: string)
    ensures |r| <= |s|
  {
    if |s| > 0 && IsSpace(s[|s| - 1]) then TrimEnd(s[..|s| - 1]) else s
  }

  /** `trimStart` cuts white space from the front and stops at the first
      other character. */
  lemma {:induction false} TrimStartSpec(s: string)
    ensures TrimStart(s) == s[|s| - |TrimStart(s)|..]
    ensures TrimStart(s) == [] || !IsSpace(TrimStart(s)[0])
    ensures forall i :: 0 <= i < |s| - |TrimStart(s)| ==> IsSpace(s[i])
    decreases |s|
  {
    if |s| > 0 && IsSpace(s[0]) {
      TrimStartSpec(s[1..]);
    }
  }

  /** `trimEnd` cuts white space from the back and stops at the last other
      character. */
  lemma {:induction false} TrimEndSpec(s: string)
    ensures TrimEnd(s) == s[..|TrimEnd(s)|]
    ensures TrimEnd(s) == [] || !IsSpace(TrimEnd(s)[|TrimEnd(s)| - 1])
    ensures forall i :: |TrimEnd(s)| <= i < |s| ==> IsSpace(s[i])
    decreases |s|
  {
    if |s| > 0 && IsSpace(s[|s| - 1]) {
      TrimEndSpec(s[..|s| - 1]);
    }
  }

  /** `s.trim()`. */
  function Trim(s: string): string
  {
    TrimEnd(TrimStart(s))
  }

  predicate IsTrimmed(s: string)
  {
    s == [] || (!IsSpace(s[0]) && !IsSpace(s[|s| - 1]))
  }

  /** The trimmed text has no white space at either end. */
  lemma TrimIsTrimmed(s: string)
    ensures IsTrimmed(Trim(s))
  {
    var a := TrimStart(s);
    TrimStartSpec(s);
    TrimEndSpec(a);
    var r := TrimEnd(a);
    if r != [] {
      assert r[0] == a[0];
    }
  }

  /** The trimmed text is a slice of the input with only white space cut
      away. */
  lemma TrimIsSlice(s: string)
    ensures exists i, j ::
              && 0 <= i <= j <= |s| && Trim(s) == s[i..j]
              && (forall k :: 0 <= k < i ==> IsSpace(s[k]))
              && (forall k :: j <= k < |s| ==> IsSpace(s[k]))
  {
    var a := TrimStart(s);
    TrimStartSpec(s);
    TrimEndSpec(a);
    var r := TrimEnd(a);
    var i := |s| - |a|;
    var j := i + |r|;
    assert r == s[i..j];
    forall k | j <= k < |s|
      ensures IsSpace(s[k])
    {
      assert s[k] == a[k - i];
    }
  }

  /** Both halves. */
  lemma TrimSpec(s: string)
    ensures IsTrimmed(Trim(s))
    ensures exists i, j ::
              && 0 <= i <= j <= |s| && Trim(s) == s[i..j]
              && (forall k :: 0 <= k < i ==> IsSpace(s[k]))
              && (forall k :: j <= k < |s| ==> IsSpace(s[k]))
  {
    TrimIsTrimmed(s);
    TrimIsSlice(s);
  }

  /** Trimming twice is trimming once. */
  lemma TrimIdempotent(s: string)
    ensures Trim(Trim(s)) == Trim(s)
  {
    TrimSpec(s);
    TrimOfTrimmed(Trim(s));
  }

  lemma TrimOfTrimmed(s: string)
    requires IsTrimmed(s)
    ensures Trim(s) == s
  {
  }

  /** ASCII case mapping; `toLowerCase` lowers other scripts too (see README). */
  function LowerChar(c: char): char
  {
    if 'A' <= c <= 'Z' then (c as int + 32) as char else c
  }

  function ToLower(s: string): (r: string)
    ensures |r| == |s|
    ensures forall i :: 0 <= i < |s| ==> r[i] == LowerChar(s[i])
  {
    if s == [] then [] else [LowerChar(s[0])] + ToLower(s[1..])
  }

  lemma ToLowerIdempotent(s: string)
    ensures ToLower(ToLower(s)) == ToLower(s)
  {
  }

  predicate StartsWith(s: string, p: string)
  {
    |p| <= |s| && s[..|p|] == p
  }

  predicate EndsWith(s: string, p: string)
  {
    |p| <= |s| && s[|s| - |p|..] == p
  }

  lemma EndsWithAppend(s: string, t: string)
    ensures EndsWith(s + t, t)
  {
    assert (s + t)[|s|..] == t;
  }

  predicate OccursAt(s: string, t: string, i: int)
  {
    0 <= i && i + |t| <= |s| && s[i..i + |t|] == t
  }

  /** `s.includes(t)`: some position of `s` starts a copy of `t`. */
  predicate Contains(s: string, t: string)
  {
    exists i :: 0 <= i <= |s| && OccursAt(s, t, i)
  }

  /** An occurrence at `m` in a slice from `i` is one at `i + m` in the
      whole text. */
  lemma OccursInSlice(s: string, i: int, j: int, t: string, m: int)
    requires 0 <= i <= j <= |s|
    ensures OccursAt(s[i..j], t, m) ==> OccursAt(s, t, i + m)
  {
    if OccursAt(s[i..j], t, m) {
      forall k | 0 <= k < |t|
        ensures s[i + m + k] == t[k]
      {
        assert t[k] == s[i..j][m..m + |t|][k] == s[i..j][m + k];
      }
      assert s[i + m..i + m + |t|] == t;
    }
  }

  /** An occurrence in a slice is an occurrence in the whole text. */
  lemma ContainsSlice(s: string, i: int, j: int, t: string)
    requires 0 <= i <= j <= |s|
    ensures Contains(s[i..j], t) ==> Contains(s, t)
  {
    if Contains(s[i..j], t) {
      var k :| 0 <= k <= |s[i..j]| && OccursAt(s[i..j], t, k);
      forall m | 0 <= m < |t|
        ensures s[i + k + m] == t[m]
      {
        assert t[m] == s[i..j][k..k + |t|][m] == s[i..j][k + m];
      }
      assert s[i + k..i + k + |t|] == t;
      assert OccursAt(s, t, i + k);
    }
  }

  /** `includes` is transitive. */
  lemma ContainsTrans(s: string, t: string, u: string)
    ensures Contains(s, t) && Contains(t, u) ==> Contains(s, u)
  {
    if Contains(s, t) && Contains(t, u) {
      var i :| 0 <= i <= |s| && OccursAt(s, t, i);
      assert t == s[i..i + |t|];
      ContainsSlice(s, i, i + |t|, u);
    }
  }

  /** Searching for one character is membership. */
  lemma ContainsChar(s: string, c: char)
    ensures Contains(s, [c]) <==> c in s
  {
    if c in s {
      var i :| 0 <= i < |s| && s[i] == c;
      assert s[i..i + 1] == [c];
      assert OccursAt(s, [c], i);
    }
    forall i | OccursAt(s, [c], i)
      ensures c in s
    {
      assert s[i] == s[i..i + 1][0];
    }
  }

  /** Every character of a word found in a text occurs in the text. */
  lemma ContainsChars(s: string, t: string)
    ensures Contains(s, t) ==> forall c :: c in t ==> c in s
  {
    if Contains(s, t) {
      var i :| 0 <= i <= |s| && OccursAt(s, t, i);
      forall c | c in t
        ensures c in s
      {
        var m :| 0 <= m < |t| && t[m] == c;
        assert s[i + m] == s[i..i + |t|][m];
      }
    }
  }

  /** A word with no capital letter found in a text is found in its
      lower-cased form too. */
  lemma ContainsLowered(s: string, t: string)
    requires ToLower(t) == t
    ensures Contains(s, t) ==> Contains(ToLower(s), t)
  {
    if Contains(s, t) {
      var i :| 0 <= i <= |s| && OccursAt(s, t, i);
      var l := ToLower(s);
      forall m | 0 <= m < |t|
        ensures l[i + m] == t[m]
      {
        assert s[i + m] == s[i..i + |t|][m];
        assert ToLower(t)[m] == LowerChar(t[m]);
      }
      assert l[i..i + |t|] == t;
      assert OccursAt(l, t, i);
    }
  }

  /** `s.split(sep)` for a one-character separator: never empty, and the
      pieces hold no separator. */
  function Split(s: string, sep: char): (r: seq<string>)
    ensures |r| >= 1
    ensures forall k :: 0 <= k < |r| ==> sep !in r[k]
    decreases |s|
  {
    if sep in s then
      var i := IndexOf(s, sep);
      [s[..i]] + Split(s[i + 1..], sep)
    else
      [s]
  }

  /** The first position of `c` in `s`. */
  function IndexOf(s: string, c: char): (i: nat)
    requires c in s
    ensures i < |s| && s[i] == c && c !in s[..i]
  {
    if s[0] == c then 0 else 1 + IndexOf(s[1..], c)
  }

  /** `lines.join(sep)`. */
  function Join(lines: seq<string>, sep: char): string
  {
    if |lines| == 0 then ""
    else if |lines| == 1 then lines[0]
    else lines[0] + [sep] + Join(lines[1..], sep)
  }

  /** Joining the pieces of a split gives the text back. */
  lemma {:induction false} JoinSplit(s: string, sep: char)
    ensures Join(Split(s, sep), sep) == s
    decreases |s|
  {
    if sep in s {
      var i := IndexOf(s, sep);
      var rest := Split(s[i + 1..], sep);
      JoinSplit(s[i + 1..], sep);
      assert Split(s, sep) == [s[..i]] + rest;
      assert Join([s[..i]] + rest, sep) == s[..i] + [sep] + Join(rest, sep) by {
        assert ([s[..i]] + rest)[1..] == rest;
      }
      assert s == s[..i] + [sep] + s[i + 1..];
    }
  }

  /** `IndexOf` finds the only candidate: a position holding `c` with no `c` before it. */
  lemma {:induction false} IndexOfAt(s: string, c: char, p: nat)
    requires p < |s| && s[p] == c && c !in s[..p]
    ensures IndexOf(s, c) == p
  {
    if p > 0 {
      assert s[0] == s[..p][0];
      assert s[1..][p - 1] == c;
      assert s[1..][..p - 1] == s[..p][1..];
      IndexOfAt(s[1..], c, p - 1);
    }
  }

  /** Splitting at the first separator. */
  lemma SplitAtFirst(a: string, sep: char, b: string)
    requires sep !in a
    ensures Split(a + [sep] + b, sep) == [a] + Split(b, sep)
  {
    var s := a + [sep] + b;
    assert s[|a|] == sep && s[..|a|] == a && s[|a| + 1..] == b;
    IndexOfAt(s, sep, |a|);
  }

  /** Splitting a join of separator-free lines gives the lines back. */
  lemma {:induction false} SplitJoin(lines: seq<string>, sep: char)
    requires |lines| >= 1
    requires forall k :: 0 <= k < |lines| ==> sep !in lines[k]
    ensures Split(Join(lines, sep), sep) == lines
    decreases |lines|
  {
    if |lines| > 1 {
      var rest := Join(lines[1..], sep);
      assert Join(lines, sep) == lines[0] + [sep] + rest;
      assert sep !in lines[0];
      SplitAtFirst(lines[0], sep, rest);
      SplitJoin(lines[1..], sep);
      assert lines == [lines[0]] + lines[1..];
    } else {
      assert sep !in lines[0];
    }
  }

  /** Where an occurrence of `t` covers position `p`, `t` holds `s[p]`. */
  lemma OccursCovers(s: string, t: string, i: int, p: int)
    ensures OccursAt(s, t, i) && i <= p < i + |t| ==> t[p - i] == s[p]
  {
    if OccursAt(s, t, i) && i <= p < i + |t| {
      assert t[p - i] == s[i..i + |t|][p - i];
    }
  }

  /** An occurrence of a separator-free word in a join lies inside one line. */
  lemma {:induction false} ContainsJoin(lines: seq<string>, sep: char, t: string)
    requires |lines| >= 1 && sep !in t
    requires Contains(Join(lines, sep), t)
    ensures exists k :: 0 <= k < |lines| && Contains(lines[k], t)
    decreases |lines|
  {
    if |lines| == 1 {
      assert Contains(lines[0], t);
    } else {
      var s := Join(lines, sep);
      var a := lines[0];
      var rest := Join(lines[1..], sep);
      assert s == a + [sep] + rest;
      var i :| 0 <= i <= |s| && OccursAt(s, t, i);
      OccursCovers(s, t, i, |a|);
      assert s[|a|] == sep;
      if i + |t| <= |a| {
        assert s[i..i + |t|] == a[i..i + |t|];
        assert OccursAt(a, t, i);
      } else {
        assert i > |a|;
        assert s[i..i + |t|] == rest[i - |a| - 1..i - |a| - 1 + |t|];
        assert OccursAt(rest, t, i - |a| - 1);
        ContainsJoin(lines[1..], sep, t);
        var k :| 0 <= k < |lines[1..]| && Contains(lines[1..][k], t);
        assert lines[k + 1] == lines[1..][k];
      }
    }
  }

  /** A separator-free word that no line contains is not in the join. */
  lemma NoOccurrenceInJoin(lines: seq<string>, sep: char, t: string)
    requires sep !in t
    ensures (forall k :: 0 <= k < |lines| ==> !Contains(lines[k], t)) && |lines| >= 1
            ==> !Contains(Join(lines, sep), t)
  {
    if |lines| >= 1 && Contains(Join(lines, sep), t) {
      ContainsJoin(lines, sep, t);
    }
  }

  /** Decimal rendering of a natural number. */
  function NatToString(n: nat): (r: string)
    ensures |r| >= 1
    ensures forall k :: 0 <= k < |r| ==> '0' <= r[k] <= '9'
  {
    if n < 10 then [DigitChar(n)] else NatToString(n / 10) + [DigitChar(n % 10)]
  }

  function DigitChar(d: nat): (c: char)
    requires d < 10
    ensures '0' <= c <= '9'
  {
    ('0' as int + d) as char
  }

  /** `${n}` for an integer-valued JavaScript number. */
  function IntToString(n: int): string
  {
    if n < 0 then "-" + NatToString(-n) else NatToString(n)
  }
}
