/**
 * Generic values shared by every module: an optional value, the three states
 * of a key in a decoded JSON object, and the parts of Python's truthiness and
 * `str()` that the feeds rely on.
 */
module Values {

  datatype Option<T> = None | Some(value: T)

  datatype Result<T, E> = Ok(value: T) | Err(error: E)

  /** A key of a JSON object: absent, present with `null`, or present with a value. */
  datatype Field<T> = Missing | Null | Val(value: T)

  /** `obj.get(key, default)`: the default only when the key is absent; `null` reads as `None`. */
  function Get<T>(f: Field<T>, default: T): Option<T>
  {
    match f
    case Missing => Some(default)
    case Null => None
    case Val(v) => Some(v)
  }

  /** `obj.get(key)`: `None` for an absent key and for `null`. */
  function Lookup<T>(f: Field<T>): Option<T>
  {
    if f.Val? then Some(f.value) else None
  }

  /** Python truthiness of an optional string. */
  predicate Truthy(s: Option<string>)
  {
    s.Some? && s.value != ""
  }

  /** Python truthiness of an optional boolean. */
  predicate TruthyBool(b: Option<bool>)
  {
    b == Some(true)
  }

  /** Python truthiness of an optional natural number. */
  predicate TruthyNat(n: Option<nat>)
  {
    n.Some? && n.value != 0
  }

  /** `str(x)` of an optional string: `None` prints as "None". */
  function StrOf(s: Option<string>): string
  {
    if s.Some? then s.value else "None"
  }

  /** `str(obj.get(key, default))` for a string-valued key. */
  function GetStr(f: Field<string>, default: string): string
  {
    StrOf(Get(f, default))
  }

  /** `[f(x) for x in xs]`: built from the front, one element per step. */
  function Map<A, B>(f: A -> B, xs: seq<A>): (r: seq<B>)
    ensures |r| == |xs|
  {
    if xs == [] then [] else Map(f, xs[..|xs| - 1]) + [f(xs[|xs| - 1])]
  }

  /** Element `k` of the mapped sequence is `f` of element `k`. */
  lemma {:induction false} MapAt<A, B>(f: A -> B, xs: seq<A>, k: nat)
    requires k < |xs|
    ensures Map(f, xs)[k] == f(xs[k])
  {
    var n := |xs| - 1;
    if k < n {
      MapAt(f, xs[..n], k);
      assert xs[..n][k] == xs[k];
    }
  }

  /** Mapping one more element appends its image. */
  lemma MapSnoc<A, B>(f: A -> B, xs: seq<A>, k: nat)
    requires k < |xs|
    ensures Map(f, xs[..k + 1]) == Map(f, xs[..k]) + [f(xs[k])]
  {
    assert xs[..k + 1][..k] == xs[..k];
  }

  /**
   * `for x in xs: out.extend(f(x))` where `f` may raise (`None`): the
   * concatenated results, or `None` as soon as one call raises.
   */
  function Collect<A, B>(f: A -> Option<seq<B>>, xs: seq<A>): Option<seq<B>>
  {
    if xs == [] then Some([])
    else
      var front := Collect(f, xs[..|xs| - 1]);
      var last := f(xs[|xs| - 1]);
      if front.None? || last.None? then None else Some(front.value + last.value)
  }

  /** The loop finishes exactly when no call raises. */
  lemma {:induction false} CollectSome<A, B>(f: A -> Option<seq<B>>, xs: seq<A>)
    ensures Collect(f, xs).Some? <==> forall i :: 0 <= i < |xs| ==> f(xs[i]).Some?
  {
    if xs != [] {
      var n := |xs| - 1;
      CollectSome(f, xs[..n]);
      assert forall i :: 0 <= i < n ==> xs[..n][i] == xs[i];
    }
  }

  /** One more element: its results are appended, or its raise ends the loop. */
  lemma CollectSnoc<A, B>(f: A -> Option<seq<B>>, xs: seq<A>, k: nat)
    requires k < |xs|
    ensures var front := Collect(f, xs[..k]); var last := f(xs[k]);
      Collect(f, xs[..k + 1]) == if front.None? || last.None? then None else Some(front.value + last.value)
  {
    assert xs[..k + 1][..k] == xs[..k];
  }

  /** Running over `a` and then over `b`: both results in order, or `None` when either run raises. */
  lemma {:induction false} CollectAppend<A, B>(f: A -> Option<seq<B>>, a: seq<A>, b: seq<A>)
    ensures var x, y := Collect(f, a), Collect(f, b);
      Collect(f, a + b) == if x.None? || y.None? then None else Some(x.value + y.value)
    decreases |b|
  {
    if b == [] {
      assert a + b == a;
      if Collect(f, a).Some? {
        assert Collect(f, a).value + [] == Collect(f, a).value;
      }
    } else {
      var n := |b| - 1;
      assert (a + b)[..|a + b| - 1] == a + b[..n];
      assert (a + b)[|a + b| - 1] == b[n];
      CollectAppend(f, a, b[..n]);
      var x, y, l := Collect(f, a), Collect(f, b[..n]), f(b[n]);
      var front := Collect(f, a + b[..n]);
      assert Collect(f, a + b) == if front.None? || l.None? then None else Some(front.value + l.value);
      assert Collect(f, b) == if y.None? || l.None? then None else Some(y.value + l.value);
      if x.Some? && y.Some? && l.Some? {
        assert x.value + y.value + l.value == x.value + (y.value + l.value);
      }
    }
  }

  /** With one result per element, the results are in order: result `k` comes from element `k`. */
  lemma {:induction false} CollectSingles<A, B>(f: A -> Option<seq<B>>, xs: seq<A>, k: nat)
    requires Collect(f, xs).Some? && forall i :: 0 <= i < |xs| ==> f(xs[i]).Some? && |f(xs[i]).value| == 1
    requires k < |xs|
    ensures |Collect(f, xs).value| == |xs| && Collect(f, xs).value[k] == f(xs[k]).value[0]
  {
    var n := |xs| - 1;
    assert forall i :: 0 <= i < n ==> xs[..n][i] == xs[i];
    CollectSome(f, xs[..n]);
    var front := Collect(f, xs[..n]).value;
    if n > 0 {
      var j := if k < n then k else 0;
      CollectSingles(f, xs[..n], j);
    }
    if k < n {
      assert Collect(f, xs).value[k] == front[k];
    }
  }

  /** Once a call raises the loop has ended: no later element undoes it. */
  lemma {:induction false} CollectStops<A, B>(f: A -> Option<seq<B>>, xs: seq<A>, j: nat)
    requires j <= |xs| && Collect(f, xs[..j]).None?
    ensures Collect(f, xs).None?
    decreases |xs| - j
  {
    if j < |xs| {
      assert xs[..j + 1][..j] == xs[..j];
      CollectStops(f, xs, j + 1);
    } else {
      assert xs[..j] == xs;
    }
  }
}
