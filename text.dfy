/**
 * The Python string operations the feeds use, written out: the `\s`, `\d` and
 * `\w` character classes, `strip`, the `\s+` collapse, `str.replace`,
 * `split`/`join` on one separator and `upper`.
 */
module Text {
  import opened Values

  /** `\s` and `str.isspace()`: exactly the characters Python treats as whitespace. */
  predicate IsSpace(c: char)
  {
    c == ' ' || ('\t' <= c <= '\r') || ('\U{1C}' <= c <= '\U{1F}')
    || c == '\U{85}' || c == '\U{A0}' || c == '\U{1680}'
    || ('\U{2000}' <= c <= '\U{200A}') || c == '\U{2028}' || c == '\U{2029}'
    || c == '\U{202F}' || c == '\U{205F}' || c == '\U{3000}'
  }

  /** `\d` on the ASCII digits. */
  predicate IsDigit(c: char)
  {
    '0' <= c <= '9'
  }

  predicate IsAsciiLower(c: char)
  {
    'a' <= c <= 'z'
  }

  predicate IsAsciiUpper(c: char)
  {
    'A' <= c <= 'Z'
  }

  /**
   * `\w` for the characters up to U+017F: ASCII letters and digits, `_`, the
   * Latin-1 letters and numerals and the whole Latin Extended-A block.
   */
  predicate IsWordChar(c: char)
  {
    IsAsciiLower(c) || IsAsciiUpper(c) || IsDigit(c) || c == '_'
    || c == '\U{AA}' || c == '\U{B2}' || c == '\U{B3}' || c == '\U{B5}'
    || c == '\U{B9}' || c == '\U{BA}' || ('\U{BC}' <= c <= '\U{BE}')
    || ('\U{C0}' <= c <= '\U{D6}') || ('\U{D8}' <= c <= '\U{F6}')
    || ('\U{F8}' <= c <= '\U{17F}')
  }

  predicate AllChars(s: string, P: char -> bool)
  {
    forall i :: 0 <= i < |s| ==> P(s[i])
  }

  predicate NoSpace(s: string)
  {
    forall i :: 0 <= i < |s| ==> !IsSpace(s[i])
  }

  predicate StartsWith(s: string, p: string)
  {
    |p| <= |s| && s[..|p|] == p
  }

  predicate EndsWith(s: string, p: string)
  {
    |p| <= |s| && s[|s| - |p|..] == p
  }

  /** `p` occurs in `s` starting at index `i`. */
  predicate OccursAt(s: string, p: string, i: int)
  {
    0 <= i && i + |p| <= |s| && s[i..i + |p|] == p
  }

  /** `p in s`. */
  predicate Contains(s: string, p: string)
  {
    exists i :: 0 <= i <= |s| && OccursAt(s, p, i)
  }

  // ---------------------------------------------------------------- find

  /** The index of the first `c` in `t`. */
  function FirstIndex(t: string, c: char): (r: Option<nat>)
    ensures r.Some? ==> r.value < |t| && t[r.value] == c && c !in t[..r.value]
    ensures r.None? ==> c !in t
  {
    if t == [] then None
    else if t[0] == c then Some(0)
    else match FirstIndex(t[1..], c)
      case None => None
      case Some(j) => assert t[..j + 1] == [t[0]] + t[1..][..j]; Some(j + 1)
  }

  /** `s.partition(c)[0]`: the text before the first `c`, or all of `s`. */
  function BeforeFirst(s: string, c: char): (r: string)
    ensures StartsWith(s, r) && c !in r
    ensures |r| < |s| ==> s[|r|] == c
  {
    if s == [] || s[0] == c then [] else [s[0]] + BeforeFirst(s[1..], c)
  }

  // ---------------------------------------------------------------- strip

  /** `s.lstrip(chars)` where `drop` says which characters are in `chars`. */
  function TrimLeft(s: string, drop: char -> bool): string
  {
    if s != [] && drop(s[0]) then TrimLeft(s[1..], drop) else s
  }

  /** `s.rstrip(chars)`. */
  function TrimRight(s: string, drop: char -> bool): string
  {
    if s != [] && drop(s[|s| - 1]) then TrimRight(s[..|s| - 1], drop) else s
  }

  /** `lstrip` removes exactly the leading run of dropped characters. */
  lemma {:induction false} TrimLeftShape(s: string, drop: char -> bool)
    ensures var r := TrimLeft(s, drop);
      |r| <= |s| && r == s[|s| - |r|..]
      && (r == [] || !drop(r[0]))
      && (forall i :: 0 <= i < |s| - |r| ==> drop(s[i]))
  {
    if s != [] && drop(s[0]) {
      TrimLeftShape(s[1..], drop);
      var r := TrimLeft(s, drop);
      forall i | 0 <= i < |s| - |r| ensures drop(s[i]) {
        if i > 0 { assert s[i] == s[1..][i - 1]; }
      }
    }
  }

  /** `rstrip` removes exactly the trailing run of dropped characters. */
  lemma {:induction false} TrimRightShape(s: string, drop: char -> bool)
    ensures var r := TrimRight(s, drop);
      |r| <= |s| && r == s[..|r|]
      && (r == [] || !drop(r[|r| - 1]))
      && (forall i :: |r| <= i < |s| ==> drop(s[i]))
  {
    if s != [] && drop(s[|s| - 1]) {
      TrimRightShape(s[..|s| - 1], drop);
      var r := TrimRight(s, drop);
      forall i | |r| <= i < |s| ensures drop(s[i]) {
        if i < |s| - 1 { assert s[i] == s[..|s| - 1][i]; }
      }
    }
  }

  /** `s.strip(chars)`: both ends. */
  function Trim(s: string, drop: char -> bool): string
  {
    TrimRight(TrimLeft(s, drop), drop)
  }

  /** `s.strip()`. */
  function Strip(s: string): string
  {
    Trim(s, IsSpace)
  }

  /** Where `Strip(s)` starts inside `s`. */
  function StripStart(s: string): nat
  {
    TrimLeftShape(s, IsSpace);
    |s| - |TrimLeft(s, IsSpace)|
  }

  /** `s.strip()` is the slice of `s` between its whitespace ends. */
  lemma StripShape(s: string)
    ensures var r := Strip(s);
      (r == [] || (!IsSpace(r[0]) && !IsSpace(r[|r| - 1])))
      && StripStart(s) + |r| <= |s| && r == s[StripStart(s)..StripStart(s) + |r|]
  {
    var l := TrimLeft(s, IsSpace);
    TrimLeftShape(s, IsSpace);
    TrimRightShape(l, IsSpace);
    var r := TrimRight(l, IsSpace);
    var a := |s| - |l|;
    assert r == l[..|r|];
    assert r == s[a..a + |r|];
  }

  /** A string with non-space ends is its own strip. */
  lemma StripNoOp(s: string)
    requires s == [] || (!IsSpace(s[0]) && !IsSpace(s[|s| - 1]))
    ensures Strip(s) == s
  {
  }

  // ----------------------------------------------------------- \s+ -> ' '

  /** The run of whitespace at the start of `s` removed. */
  function DropSpaces(s: string): (r: string)
    ensures |r| <= |s| && r == s[|s| - |r|..]
    ensures r == [] || !IsSpace(r[0])
  {
    if s != [] && IsSpace(s[0]) then DropSpaces(s[1..]) else s
  }

  /** `re.sub(r'\s+', ' ', s)`: every maximal run of whitespace becomes one space. */
  function Collapse(s: string): string
    decreases |s|
  {
    if s == [] then []
    else if IsSpace(s[0]) then [' '] + Collapse(DropSpaces(s[1..]))
    else [s[0]] + Collapse(s[1..])
  }

  /** Every whitespace character is a plain space and no two of them are adjacent. */
  predicate SingleSpaced(s: string)
  {
    (forall i :: 0 <= i < |s| && IsSpace(s[i]) ==> s[i] == ' ')
    && (forall i :: 0 < i < |s| && IsSpace(s[i]) ==> !IsSpace(s[i - 1]))
  }

  /** The non-whitespace characters of `s`, in order. */
  function Visible(s: string): string
  {
    if s == [] then [] else (if IsSpace(s[0]) then [] else [s[0]]) + Visible(s[1..])
  }

  lemma {:induction false} VisibleAppend(a: string, b: string)
    ensures Visible(a + b) == Visible(a) + Visible(b)
  {
    if a != [] {
      var h := if IsSpace(a[0]) then [] else [a[0]];
      assert (a + b)[0] == a[0] && (a + b)[1..] == a[1..] + b;
      VisibleAppend(a[1..], b);
      calc {
        Visible(a + b);
        h + Visible(a[1..] + b);
        h + (Visible(a[1..]) + Visible(b));
        (h + Visible(a[1..])) + Visible(b);
      }
    } else {
      assert a + b == b;
    }
  }

  lemma {:induction false} DropSpacesVisible(s: string)
    ensures Visible(DropSpaces(s)) == Visible(s)
  {
    if s != [] && IsSpace(s[0]) {
      DropSpacesVisible(s[1..]);
    }
  }

  lemma {:induction false} CollapseFirst(s: string)
    requires s != [] && !IsSpace(s[0])
    ensures Collapse(s) != [] && Collapse(s)[0] == s[0]
  {
  }

  /** The collapse is single-spaced, keeps every visible character, and keeps the ends' kind. */
  lemma {:induction false} CollapseSpec(s: string)
    decreases |s|
    ensures SingleSpaced(Collapse(s))
    ensures Visible(Collapse(s)) == Visible(s)
    ensures |Collapse(s)| <= |s|
    ensures s != [] ==> (Collapse(s) != [] && (IsSpace(s[0]) <==> Collapse(s)[0] == ' '))
  {
    if s == [] {
    } else if IsSpace(s[0]) {
      var t := DropSpaces(s[1..]);
      CollapseSpec(t);
      DropSpacesVisible(s[1..]);
      var c := Collapse(t);
      assert Collapse(s) == [' '] + c;
      VisibleAppend([' '], c);
      assert Visible(s) == Visible(s[1..]);
      if t != [] {
        assert !IsSpace(c[0]);
      } else {
        assert c == [];
      }
      SingleSpacedCons(' ', c);
    } else {
      CollapseSpec(s[1..]);
      var c := Collapse(s[1..]);
      VisibleAppend([s[0]], c);
      SingleSpacedCons(s[0], c);
    }
  }

  lemma SingleSpacedCons(x: char, c: string)
    requires SingleSpaced(c)
    requires IsSpace(x) ==> x == ' ' && (c == [] || !IsSpace(c[0]))
    ensures SingleSpaced([x] + c)
  {
    var r := [x] + c;
    forall i | 0 < i < |r| && IsSpace(r[i])
      ensures !IsSpace(r[i - 1])
    {
      assert r[i] == c[i - 1];
      if i > 1 { assert r[i - 1] == c[i - 2]; }
    }
  }

  /** Every slice of a single-spaced string is single-spaced. */
  lemma SingleSpacedSlice(s: string, a: nat, b: nat)
    requires SingleSpaced(s) && a <= b <= |s|
    ensures SingleSpaced(s[a..b])
  {
    var r := s[a..b];
    forall i | 0 < i < |r| && IsSpace(r[i])
      ensures !IsSpace(r[i - 1])
    {
      assert r[i] == s[a + i] && r[i - 1] == s[a + i - 1];
    }
  }

  // ------------------------------------------------------------- replace

  /** `s.replace(p, q)`: every leftmost non-overlapping occurrence of `p`, left to right. */
  function ReplaceAll(s: string, p: string, q: string): string
    requires p != []
    decreases |s|
  {
    if |s| < |p| then s
    else if s[..|p|] == p then q + ReplaceAll(s[|p|..], p, q)
    else [s[0]] + ReplaceAll(s[1..], p, q)
  }

  /** Replacing a pattern that does not occur changes nothing. */
  lemma {:induction false} ReplaceAbsent(s: string, p: string, q: string)
    requires p != [] && !Contains(s, p)
    ensures ReplaceAll(s, p, q) == s
    decreases |s|
  {
    if |s| >= |p| {
      assert !OccursAt(s, p, 0);
      forall i | OccursAt(s[1..], p, i) ensures false {
        assert s[i + 1..i + 1 + |p|] == s[1..][i..i + |p|];
        assert OccursAt(s, p, i + 1);
      }
      ReplaceAbsent(s[1..], p, q);
    }
  }

  /** Removing a pattern never lengthens the text, and removes at least one copy when the pattern occurs. */
  lemma {:induction false} RemoveShrinks(s: string, p: string)
    requires p != []
    ensures |ReplaceAll(s, p, "")| <= |s|
    ensures Contains(s, p) ==> |ReplaceAll(s, p, "")| + |p| <= |s|
    decreases |s|
  {
    if |s| < |p| {
    } else if s[..|p|] == p {
      RemoveShrinks(s[|p|..], p);
    } else {
      RemoveShrinks(s[1..], p);
      if Contains(s, p) {
        var i :| 0 <= i <= |s| && OccursAt(s, p, i);
        assert i != 0;
        assert s[1..][i - 1..i - 1 + |p|] == s[i..i + |p|];
        assert OccursAt(s[1..], p, i - 1);
      }
    }
  }

  /** No proper prefix of `p` is also a suffix of it. */
  predicate Borderless(p: string)
  {
    forall k :: 0 < k < |p| ==> p[k..] != p[..|p| - k]
  }

  /**
   * Removing a borderless pattern from `t + p` removes the trailing copy and
   * otherwise acts as on `t`: no occurrence can straddle the seam.
   */
  lemma {:induction false} ReplaceAppendBorderless(t: string, p: string)
    requires p != [] && Borderless(p)
    ensures ReplaceAll(t + p, p, "") == ReplaceAll(t, p, "")
    decreases |t|
  {
    var s := t + p;
    if t == [] {
      assert s[..|p|] == p && s[|p|..] == [];
    } else if |t| >= |p| {
      assert s[..|p|] == t[..|p|];
      if t[..|p|] == p {
        assert s[|p|..] == t[|p|..] + p;
        ReplaceAppendBorderless(t[|p|..], p);
      } else {
        assert s[1..] == t[1..] + p;
        ReplaceAppendBorderless(t[1..], p);
      }
    } else {
      var k := |t|;
      assert s[..|p|][k..] == s[k..|p|] == p[..|p| - k];
      assert p[k..] != p[..|p| - k];
      assert s[..|p|] != p;
      assert s[1..] == t[1..] + p;
      ReplaceAppendBorderless(t[1..], p);
      assert ReplaceAll(s, p, "") == [t[0]] + ReplaceAll(t[1..], p, "");
      assert ReplaceAll(t[1..], p, "") == t[1..];
      HeadTail(t);
    }
  }

  lemma HeadTail(t: string)
    requires t != []
    ensures [t[0]] + t[1..] == t
  {
  }

  // ---------------------------------------------------------- split/join

  /** `s.split(sep)` for a one-character separator: never empty, no piece holds `sep`. */
  function Split(s: string, sep: char): (r: seq<string>)
    ensures |r| >= 1
    ensures forall k :: 0 <= k < |r| ==> sep !in r[k]
    decreases |s|
  {
    if s == [] then [[]]
    else if s[0] == sep then [[]] + Split(s[1..], sep)
    else var rest := Split(s[1..], sep); [[s[0]] + rest[0]] + rest[1..]
  }

  /** `sep.join(parts)`. */
  function Join(sep: string, parts: seq<string>): string
  {
    if parts == [] then []
    else if |parts| == 1 then parts[0]
    else parts[0] + sep + Join(sep, parts[1..])
  }

  /** `s` with every occurrence of the character `c` replaced by the string `t`. */
  function ReplaceChar(s: string, c: char, t: string): string
  {
    if s == [] then [] else (if s[0] == c then t else [s[0]]) + ReplaceChar(s[1..], c, t)
  }

  /** Joining the pieces of a split with `t` replaces each separator by `t`. */
  lemma {:induction false} JoinSplit(s: string, c: char, t: string)
    ensures Join(t, Split(s, c)) == ReplaceChar(s, c, t)
    decreases |s|
  {
    if s == [] {
    } else if s[0] == c {
      JoinSplit(s[1..], c, t);
      var rest := Split(s[1..], c);
      assert Split(s, c) == [[]] + rest;
      assert ([[]] + rest)[1..] == rest;
    } else {
      JoinSplit(s[1..], c, t);
      var rest := Split(s[1..], c);
      var parts := Split(s, c);
      assert parts == [[s[0]] + rest[0]] + rest[1..];
      if |rest| == 1 {
        assert parts == [[s[0]] + rest[0]];
      } else {
        assert parts[1..] == rest[1..];
        assert Join(t, rest) == rest[0] + t + Join(t, rest[1..]);
      }
    }
  }

  /** The joined pieces of a split on `c` with `c` itself give back the string. */
  lemma {:induction false} ReplaceCharSelf(s: string, c: char)
    ensures ReplaceChar(s, c, [c]) == s
  {
    if s != [] { ReplaceCharSelf(s[1..], c); }
  }

  // ---------------------------------------------------------------- upper

  function UpperChar(c: char): char
  {
    if IsAsciiLower(c) then (c as int - 32) as char else c
  }

  /** `s.upper()` on ASCII letters: same length, no lower-case ASCII letter left. */
  function Upper(s: string): (r: string)
    ensures |r| == |s|
    ensures forall i :: 0 <= i < |s| ==> r[i] == UpperChar(s[i])
    ensures forall i :: 0 <= i < |r| ==> !IsAsciiLower(r[i])
  {
    if s == [] then [] else [UpperChar(s[0])] + Upper(s[1..])
  }

  function LowerChar(c: char): char
  {
    if IsAsciiUpper(c) then (c as int + 32) as char else c
  }

  /** `s.lower()` on ASCII letters: same length, no upper-case ASCII letter left. */
  function Lower(s: string): (r: string)
    ensures |r| == |s|
    ensures forall i :: 0 <= i < |s| ==> r[i] == LowerChar(s[i])
    ensures forall i :: 0 <= i < |r| ==> !IsAsciiUpper(r[i])
  {
    if s == [] then [] else [LowerChar(s[0])] + Lower(s[1..])
  }

  /** Text without upper-case ASCII letters is its own lower case. */
  lemma {:induction false} LowerNoUpper(s: string)
    requires forall i :: 0 <= i < |s| ==> !IsAsciiUpper(s[i])
    ensures Lower(s) == s
  {
    if s != [] { LowerNoUpper(s[1..]); }
  }
}
