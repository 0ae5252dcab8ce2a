/**
 * Explicit scanners for the substitutions that remove markup:
 * `re.sub(r'<[^>]+>', '', s)` (and the same shape for entities, `&[^;]+;`),
 * and the lazy `re.sub('<[^<]+?>', '', s)` of the older scripts. Each scans
 * left to right and removes leftmost non-overlapping matches, as `re.sub` does.
 */
module Tags {
  import opened Values
  import opened Text

  // ------------------------------------------------ greedy `o[^c]+c`

  /** `s[i..j+1]` matches `o[^c]+c`. */
  predicate IsTag(s: string, o: char, c: char, i: int, j: int)
  {
    0 <= i && i + 2 <= j < |s| && s[i] == o && s[j] == c
    && forall k :: i < k < j ==> s[k] != c
  }

  predicate HasTag(s: string, o: char, c: char)
  {
    exists i, j :: 0 <= i <= j < |s| && IsTag(s, o, c, i, j)
  }

  /** Every opener is either directly closed or never closed again. */
  predicate TagFree(s: string, o: char, c: char)
  {
    forall i :: 0 <= i < |s| && s[i] == o ==> (i + 1 < |s| && s[i + 1] == c) || c !in s[i + 1..]
  }

  /** Remove every leftmost non-overlapping match of `o[^c]+c`. */
  function StripDelimited(s: string, o: char, c: char): string
    decreases |s|
  {
    if s == [] then []
    else if s[0] == o && FirstIndex(s[1..], c).Some? && FirstIndex(s[1..], c).value >= 1
    then StripDelimited(s[FirstIndex(s[1..], c).value + 2..], o, c)
    else [s[0]] + StripDelimited(s[1..], o, c)
  }

  lemma {:induction false} StripDelimitedChars(s: string, o: char, c: char)
    ensures |StripDelimited(s, o, c)| <= |s|
    ensures forall x :: x in StripDelimited(s, o, c) ==> x in s
    decreases |s|
  {
    if s == [] {
    } else if s[0] == o && FirstIndex(s[1..], c).Some? && FirstIndex(s[1..], c).value >= 1 {
      var j := FirstIndex(s[1..], c).value;
      StripDelimitedChars(s[j + 2..], o, c);
      forall x | x in s[j + 2..] ensures x in s {
        var k :| 0 <= k < |s[j + 2..]| && s[j + 2..][k] == x;
        assert s[j + 2 + k] == x;
      }
    } else {
      StripDelimitedChars(s[1..], o, c);
    }
  }

  lemma TagFreeCons(x: char, r: string, o: char, c: char)
    requires TagFree(r, o, c)
    requires x == o ==> (r != [] && r[0] == c) || c !in r
    ensures TagFree([x] + r, o, c)
  {
    var s := [x] + r;
    forall i | 0 <= i < |s| && s[i] == o
      ensures (i + 1 < |s| && s[i + 1] == c) || c !in s[i + 1..]
    {
      assert s[i + 1..] == r[i..];
      if i > 0 { assert s[i] == r[i - 1]; }
    }
  }

  /** The result of the greedy removal holds no match. */
  lemma {:induction false} StripDelimitedTagFree(s: string, o: char, c: char)
    requires o != c
    ensures TagFree(StripDelimited(s, o, c), o, c)
    decreases |s|
  {
    if s == [] {
    } else if s[0] == o && FirstIndex(s[1..], c).Some? && FirstIndex(s[1..], c).value >= 1 {
      StripDelimitedTagFree(s[FirstIndex(s[1..], c).value + 2..], o, c);
    } else {
      var r := StripDelimited(s[1..], o, c);
      StripDelimitedTagFree(s[1..], o, c);
      StripDelimitedChars(s[1..], o, c);
      if s[0] == o && FirstIndex(s[1..], c).Some? {
        var t := s[1..];
        assert t[0] == c;
        assert r == [t[0]] + StripDelimited(t[1..], o, c);
      }
      TagFreeCons(s[0], r, o, c);
    }
  }

  /** Tag-freedom as a regular-expression statement: no substring matches `o[^c]+c`. */
  lemma TagFreeIffNoTag(s: string, o: char, c: char)
    ensures TagFree(s, o, c) <==> !HasTag(s, o, c)
  {
    if TagFree(s, o, c) {
      forall i, j | 0 <= i <= j < |s| ensures !IsTag(s, o, c, i, j) {
        if 0 <= i && i + 2 <= j < |s| {
          assert s[i + 1..][j - i - 1] == s[j];
        }
      }
    } else {
      var i :| 0 <= i < |s| && s[i] == o && !((i + 1 < |s| && s[i + 1] == c) || c !in s[i + 1..]);
      var f := FirstIndex(s[i + 1..], c);
      var j := i + 1 + f.value;
      forall k | i < k < j ensures s[k] != c {
        assert s[k] == s[i + 1..][..f.value][k - i - 1];
      }
      assert IsTag(s, o, c, i, j);
    }
  }

  /** Without a match the removal changes nothing. */
  lemma {:induction false} StripDelimitedNoTag(s: string, o: char, c: char)
    requires !HasTag(s, o, c)
    ensures StripDelimited(s, o, c) == s
    decreases |s|
  {
    if s != [] {
      if s[0] == o && FirstIndex(s[1..], c).Some? && FirstIndex(s[1..], c).value >= 1 {
        var j := FirstIndex(s[1..], c).value;
        forall k | 0 < k < j + 1 ensures s[k] != c {
          assert s[k] == s[1..][..j][k - 1];
        }
        assert IsTag(s, o, c, 0, j + 1);
        assert false;
      }
      forall i, j | 0 <= i <= j < |s[1..]| && IsTag(s[1..], o, c, i, j) ensures IsTag(s, o, c, i + 1, j + 1) {
        forall k | i + 1 < k < j + 1 ensures s[k] != c {
          assert s[k] == s[1..][k - 1];
        }
      }
      StripDelimitedNoTag(s[1..], o, c);
    }
  }

  /** With a match the removal drops at least one character. */
  lemma {:induction false} StripDelimitedShrinks(s: string, o: char, c: char)
    requires HasTag(s, o, c)
    ensures |StripDelimited(s, o, c)| < |s|
    decreases |s|
  {
    var i, j :| 0 <= i <= j < |s| && IsTag(s, o, c, i, j);
    if s[0] == o && FirstIndex(s[1..], c).Some? && FirstIndex(s[1..], c).value >= 1 {
      StripDelimitedChars(s[FirstIndex(s[1..], c).value + 2..], o, c);
    } else {
      assert s[1..][j - 1] == s[j];
      assert i != 0;
      assert IsTag(s[1..], o, c, i - 1, j - 1);
      StripDelimitedShrinks(s[1..], o, c);
    }
  }

  /** The removal leaves its input unchanged exactly when the input holds no match. */
  lemma StripDelimitedFixpoint(s: string, o: char, c: char)
    ensures StripDelimited(s, o, c) == s <==> !HasTag(s, o, c)
  {
    if HasTag(s, o, c) { StripDelimitedShrinks(s, o, c); } else { StripDelimitedNoTag(s, o, c); }
  }

  /** Removing twice is removing once. */
  lemma StripDelimitedIdempotent(s: string, o: char, c: char)
    requires o != c
    ensures StripDelimited(StripDelimited(s, o, c), o, c) == StripDelimited(s, o, c)
  {
    var r := StripDelimited(s, o, c);
    StripDelimitedTagFree(s, o, c);
    TagFreeIffNoTag(r, o, c);
    StripDelimitedNoTag(r, o, c);
  }

  /** Every slice of a tag-free string is tag-free. */
  lemma TagFreeSlice(s: string, a: nat, b: nat, o: char, c: char)
    requires TagFree(s, o, c) && a <= b <= |s|
    ensures TagFree(s[a..b], o, c)
  {
    var r := s[a..b];
    forall i | 0 <= i < |r| && r[i] == o
      ensures (i + 1 < |r| && r[i + 1] == c) || c !in r[i + 1..]
    {
      assert r[i] == s[a + i];
      if c in r[i + 1..] {
        var k :| i + 1 <= k < |r| && r[k] == c;
        assert s[a + i + 1..][k - i - 1] == c;
        assert s[a + i + 1] == c;
      }
    }
  }

  /** Stripping whitespace keeps a string tag-free. */
  lemma StripTagFree(s: string, o: char, c: char)
    requires TagFree(s, o, c)
    ensures TagFree(Strip(s), o, c)
  {
    StripShape(s);
    TagFreeSlice(s, StripStart(s), StripStart(s) + |Strip(s)|, o, c);
  }

  lemma {:induction false} VisibleChars(s: string, x: char)
    requires !IsSpace(x)
    ensures x in s <==> x in Visible(s)
  {
    if s != [] {
      VisibleChars(s[1..], x);
      assert s == [s[0]] + s[1..];
    }
  }

  /** Collapsing whitespace keeps a string tag-free when neither delimiter is whitespace. */
  lemma {:induction false} CollapseTagFree(s: string, o: char, c: char)
    requires TagFree(s, o, c) && !IsSpace(o) && !IsSpace(c)
    ensures TagFree(Collapse(s), o, c)
    decreases |s|
  {
    if s == [] {
    } else if IsSpace(s[0]) {
      var t := DropSpaces(s[1..]);
      TagFreeSlice(s, |s| - |t|, |s|, o, c);
      CollapseTagFree(t, o, c);
      TagFreeCons(' ', Collapse(t), o, c);
    } else {
      TagFreeSlice(s, 1, |s|, o, c);
      CollapseTagFree(s[1..], o, c);
      var r := Collapse(s[1..]);
      if s[0] == o {
        if |s| > 1 && s[1] == c {
          CollapseFirst(s[1..]);
        } else {
          assert c !in s[1..];
          CollapseSpec(s[1..]);
          VisibleChars(s[1..], c);
          VisibleChars(r, c);
        }
      }
      TagFreeCons(s[0], r, o, c);
    }
  }

  // ------------------------------------------------ lazy `<[^<]+?>`

  /** `s[i..j+1]` matches `<[^<]+?>` (no `<` inside; a `>` may occur inside). */
  predicate IsLazyTag(s: string, i: int, j: int)
  {
    0 <= i && i + 2 <= j < |s| && s[i] == '<' && s[j] == '>'
    && forall k :: i < k < j ==> s[k] != '<'
  }

  predicate HasLazyTag(s: string)
  {
    exists i, j :: 0 <= i <= j < |s| && IsLazyTag(s, i, j)
  }

  /** From index `k` on, the first of `<` and `>` in `t`, when it is a `>`. */
  function GtBeforeLt(t: string, k: nat): (r: Option<nat>)
    requires k <= |t|
    ensures r.Some? ==> (k <= r.value < |t| && t[r.value] == '>'
      && forall m :: k <= m < r.value ==> t[m] != '<' && t[m] != '>')
    ensures r.None? ==> forall m :: k <= m < |t| && t[m] == '>' ==> exists n :: k <= n < m && t[n] == '<'
    decreases |t| - k
  {
    if k == |t| then None
    else if t[k] == '>' then Some(k)
    else if t[k] == '<' then None
    else GtBeforeLt(t, k + 1)
  }

  /** The end (in `t`, the text after a `<`) of the lazy match starting at that `<`. */
  function LazyClose(t: string): Option<nat>
  {
    if t == [] || t[0] == '<' then None else GtBeforeLt(t, 1)
  }

  /** `re.sub('<[^<]+?>', '', s)`. */
  function StripLazyTags(s: string): string
    decreases |s|
  {
    if s == [] then []
    else if s[0] == '<' && LazyClose(s[1..]).Some?
    then StripLazyTags(s[LazyClose(s[1..]).value + 2..])
    else [s[0]] + StripLazyTags(s[1..])
  }

  lemma {:induction false} StripLazyChars(s: string)
    ensures |StripLazyTags(s)| <= |s|
    ensures forall x :: x in StripLazyTags(s) ==> x in s
    decreases |s|
  {
    if s == [] {
    } else if s[0] == '<' && LazyClose(s[1..]).Some? {
      var j := LazyClose(s[1..]).value;
      StripLazyChars(s[j + 2..]);
      forall x | x in s[j + 2..] ensures x in s {
        var k :| 0 <= k < |s[j + 2..]| && s[j + 2..][k] == x;
        assert s[j + 2 + k] == x;
      }
    } else {
      StripLazyChars(s[1..]);
    }
  }

  /** A lazy match starting at the front is found by the scanner. */
  lemma LazyTagAtFront(s: string, j: int)
    requires IsLazyTag(s, 0, j)
    ensures LazyClose(s[1..]).Some?
  {
    var t := s[1..];
    assert t[0] == s[1] && t[0] != '<';
    assert t[j - 1] == s[j];
    forall n | 1 <= n < j - 1 ensures t[n] != '<' {
      assert t[n] == s[n + 1];
    }
  }

  /** The lazy removal leaves its input unchanged exactly when the input holds no match. */
  lemma {:induction false} StripLazyFixpoint(s: string)
    ensures StripLazyTags(s) == s <==> !HasLazyTag(s)
    decreases |s|
  {
    if s == [] {
    } else if s[0] == '<' && LazyClose(s[1..]).Some? {
      var j := LazyClose(s[1..]).value;
      StripLazyChars(s[j + 2..]);
      var t := s[1..];
      forall k | 0 < k < j + 1 ensures s[k] != '<' {
        assert s[k] == t[k - 1];
      }
      assert IsLazyTag(s, 0, j + 1);
    } else {
      StripLazyFixpoint(s[1..]);
      var r := StripLazyTags(s[1..]);
      assert StripLazyTags(s) == [s[0]] + r;
      if HasLazyTag(s) {
        var i, j :| 0 <= i <= j < |s| && IsLazyTag(s, i, j);
        if i == 0 {
          LazyTagAtFront(s, j);
          assert false;
        }
        assert IsLazyTag(s[1..], i - 1, j - 1);
        assert r != s[1..];
        assert StripLazyTags(s)[1..] == r;
      } else {
        forall i, j | 0 <= i <= j < |s[1..]| ensures !IsLazyTag(s[1..], i, j) {
          if IsLazyTag(s[1..], i, j) { assert IsLazyTag(s, i + 1, j + 1); }
        }
      }
    }
  }

  /** A single lazy pass can leave a match behind: `<<a>b>` becomes `<b>`. */
  lemma LazyPassLeavesTag()
    ensures StripLazyTags("<<a>b>") == "<b>"
    ensures HasLazyTag("<b>")
  {
    assert "<<a>b>"[1..] == "<a>b>";
    assert LazyClose("<a>b>").None?;
    assert "<<a>b>"[2..] == "a>b>";
    assert GtBeforeLt("a>b>", 1) == Some(1);
    assert "<<a>b>"[4..] == "b>";
    assert StripLazyTags("b>") == "b>";
    assert IsLazyTag("<b>", 0, 2);
  }
}
