/**
 * A feed item: the insertion-ordered dictionary every mapper builds for one
 * variant, from field name to a scalar, a list or a nested group. Assigning
 * to a key that is already present keeps its position, as a Python `dict`
 * does; assigning a new key appends it.
 */
module FeedItems {
  import opened Values
  import opened Text

  /** A list entry: a string (or `None`), or a small dictionary such as a Zbozi `PARAM`. */
  datatype Atom = Str(text: Option<string>) | Dict(pairs: seq<(string, Option<string>)>)

  /** A field value. */
  datatype Value = Scalar(s: Option<string>) | List(atoms: seq<Atom>) | Group(fields: seq<(string, string)>)

  type Item = seq<(string, Value)>

  function Keys(it: Item): seq<string>
  {
    seq(|it|, i requires 0 <= i < |it| => it[i].0)
  }

  lemma KeysCons(it: Item)
    requires it != []
    ensures Keys(it) == [it[0].0] + Keys(it[1..])
  {
  }

  predicate Distinct(s: seq<string>)
  {
    forall i, j :: 0 <= i < j < |s| ==> s[i] != s[j]
  }

  /** `item.get(k)`: the value of the first entry with key `k`. */
  function Find(it: Item, k: string): (r: Option<Value>)
    ensures r.Some? <==> k in Keys(it)
    ensures r.Some? ==> exists i :: 0 <= i < |it| && it[i] == (k, r.value)
  {
    if it == [] then None
    else if it[0].0 == k then assert Keys(it)[0] == k; Some(it[0].1)
    else
      KeysCons(it);
      var r := Find(it[1..], k);
      assert r.Some? ==> exists i :: 0 <= i < |it[1..]| && it[1..][i] == (k, r.value);
      assert r.Some? ==> exists i :: 1 <= i < |it| && it[i] == (k, r.value);
      r
  }

  /** `item[k] = v`. */
  function Put(it: Item, k: string, v: Value): (r: Item)
    ensures Find(r, k) == Some(v)
    ensures forall j :: j != k ==> Find(r, j) == Find(it, j)
    ensures k in Keys(it) ==> Keys(r) == Keys(it)
    ensures k !in Keys(it) ==> Keys(r) == Keys(it) + [k]
  {
    if it == [] then [(k, v)]
    else if it[0].0 == k then [(k, v)] + it[1..]
    else
      var t := Put(it[1..], k, v);
      KeysCons(it);
      KeysCons([it[0]] + t);
      assert ([it[0]] + t)[1..] == t;
      [it[0]] + t
  }

  lemma DistinctAppend(a: seq<string>, b: seq<string>)
    requires Distinct(a) && Distinct(b)
    requires forall i :: 0 <= i < |b| ==> b[i] !in a
    ensures Distinct(a + b)
  {
    forall i, j | 0 <= i < j < |a + b| ensures (a + b)[i] != (a + b)[j] {
      if j >= |a| && i < |a| {
        assert (a + b)[j] == b[j - |a|];
      }
    }
  }

  /** Assignment keeps the keys distinct. */
  lemma PutDistinct(it: Item, k: string, v: Value)
    requires Distinct(Keys(it))
    ensures Distinct(Keys(Put(it, k, v)))
  {
    var r := Put(it, k, v);
    if k !in Keys(it) {
      assert Keys(r) == Keys(it) + [k];
    }
  }

  /** Assigning a new key appends the entry. */
  lemma {:induction false} PutNew(it: Item, k: string, v: Value)
    requires k !in Keys(it)
    ensures Put(it, k, v) == it + [(k, v)]
  {
    if it != [] {
      var t := it[1..];
      KeysCons(it);
      assert it[0].0 != k && k !in Keys(t);
      PutNew(t, k, v);
      assert Put(it, k, v) == [it[0]] + (t + [(k, v)]);
      ConsSnoc(it, (k, v));
    }
  }

  lemma ConsSnoc<T>(s: seq<T>, y: T)
    requires s != []
    ensures [s[0]] + (s[1..] + [y]) == s + [y]
  {
    assert [s[0]] + (s[1..] + [y]) == ([s[0]] + s[1..]) + [y];
    assert [s[0]] + s[1..] == s;
  }

  /** `for x in xs: item[k] = x`: the key assigned once per pass. */
  function PutAll(it: Item, k: string, vs: seq<Value>): Item
  {
    if vs == [] then it else Put(PutAll(it, k, vs[..|vs| - 1]), k, vs[|vs| - 1])
  }

  /** Re-assigning the last-appended key replaces its value in place. */
  lemma {:induction false} PutLast(a: Item, k: string, x: Value, y: Value)
    requires k !in Keys(a)
    ensures Put(a + [(k, x)], k, y) == a + [(k, y)]
  {
    if a == [] {
      assert [(k, x)][1..] == [];
    } else {
      KeysCons(a);
      var s := a + [(k, x)];
      assert s[0] == a[0] && a[0].0 != k && s[1..] == a[1..] + [(k, x)];
      PutLast(a[1..], k, x, y);
      assert Put(s, k, y) == [a[0]] + (a[1..] + [(k, y)]);
      ConsSnoc(a, (k, y));
    }
  }

  /** Assigning a new key on every pass leaves one entry, at the end, holding the last value. */
  lemma {:induction false} PutAllNew(it: Item, k: string, vs: seq<Value>)
    requires k !in Keys(it) && vs != []
    ensures PutAll(it, k, vs) == it + [(k, vs[|vs| - 1])]
  {
    var n := |vs| - 1;
    if n == 0 {
      PutNew(it, k, vs[0]);
    } else {
      PutAllNew(it, k, vs[..n]);
      assert vs[..n][n - 1] == vs[n - 1];
      PutLast(it, k, vs[n - 1], vs[n]);
    }
  }

  /** `if cond: item[k] = v` for a new key: the entry is appended when `cond` holds. */
  lemma PutWhen(a: Item, cond: bool, k: string, v: Value)
    requires k !in Keys(a)
    ensures (if cond then Put(a, k, v) else a) == a + (if cond then [(k, v)] else [])
  {
    if cond {
      PutNew(a, k, v);
    }
  }

  /** Keys of a concatenation. */
  lemma {:induction false} KeysAppend(a: Item, b: Item)
    ensures Keys(a + b) == Keys(a) + Keys(b)
  {
    if a != [] {
      assert (a + b)[1..] == a[1..] + b;
      KeysAppend(a[1..], b);
    }
  }

  /** A key absent from an item stays absent after appending entries under other keys. */
  lemma KeyAfter(a: Item, b: Item, names: seq<string>, k: string)
    requires forall i :: 0 <= i < |b| ==> b[i].0 in names
    requires k !in Keys(a) && k !in names
    ensures k !in Keys(a + b)
  {
    KeysAppend(a, b);
  }

  /** Looking a key up in a concatenation: the first part wins. */
  lemma {:induction false} FindAppend(a: Item, b: Item, k: string)
    ensures Find(a + b, k) == if k in Keys(a) then Find(a, k) else Find(b, k)
  {
    if a != [] {
      assert (a + b)[0] == a[0] && (a + b)[1..] == a[1..] + b;
      KeysCons(a);
      if a[0].0 == k {
        assert Keys(a)[0] == k;
      } else {
        FindAppend(a[1..], b, k);
        assert Find(a + b, k) == Find(a[1..] + b, k);
        assert k in Keys(a) <==> k in Keys(a[1..]);
      }
    } else {
      assert a + b == b;
    }
  }

  /** A key absent from the front part is looked up in the back part. */
  lemma FindSkip(a: Item, b: Item, k: string)
    requires k !in Keys(a)
    ensures Find(a + b, k) == Find(b, k)
  {
    FindAppend(a, b, k);
  }

  /** A key absent from the back part is looked up in the front part. */
  lemma FindBack(a: Item, b: Item, k: string)
    requires k !in Keys(a)
    ensures k in Keys(a + b) <==> k in Keys(b)
    ensures Find(a + b, k) == Find(b, k)
  {
    KeysAppend(a, b);
    FindAppend(a, b, k);
  }

  lemma FindKeep(a: Item, b: Item, k: string)
    requires k !in Keys(b)
    ensures Find(a + b, k) == Find(a, k)
  {
    FindAppend(a, b, k);
  }

  /** Every entry of `it` has the key `name`. */
  predicate OnlyKey(it: Item, name: string)
  {
    forall i :: 0 <= i < |it| ==> it[i].0 == name
  }

  lemma OnlyKeyAbsent(it: Item, name: string, k: string)
    requires OnlyKey(it, name) && k != name
    ensures k !in Keys(it)
  {
  }

  /** Each key of an item with distinct keys occurs once, at one position. */
  lemma {:induction false} FindAt(it: Item, i: nat)
    requires Distinct(Keys(it)) && i < |it|
    ensures Find(it, it[i].0) == Some(it[i].1)
  {
    KeysCons(it);
    if i > 0 {
      assert it[i].0 != it[0].0 by { assert Keys(it)[i] != Keys(it)[0]; }
      assert Keys(it[1..]) == Keys(it)[1..];
      FindAt(it[1..], i - 1);
    }
  }

  /** A key of the distinct-keyed front, absent from the names the tail may use, is found in the front. */
  lemma FindFront(a: Item, b: Item, names: seq<string>, i: nat)
    requires Distinct(Keys(a)) && i < |a|
    requires forall j :: 0 <= j < |b| ==> b[j].0 in names
    requires a[i].0 !in names
    ensures Find(a + b, a[i].0) == Some(a[i].1)
  {
    FindAt(a, i);
    KeyAfter([], b, names, a[i].0);
    assert [] + b == b;
    FindKeep(a, b, a[i].0);
  }

  // --------------------------------------------------------- str() of atoms

  /** `str(v)` of a list entry: the string itself, `None`, or the repr of a dictionary. */
  function ShowAtom(a: Atom): string
  {
    match a
    case Str(t) => StrOf(t)
    case Dict(pairs) => ReprDict(pairs)
  }

  /** `repr(a)` of a list entry. */
  function ReprAtom(a: Atom): string
  {
    match a
    case Str(t) => ReprValue(t)
    case Dict(pairs) => ReprDict(pairs)
  }

  /** `str(v)` of a field value: a string as it is, a list or a dictionary in repr. */
  function Show(v: Value): string
  {
    match v
    case Scalar(s) => StrOf(s)
    case List(atoms) => "[" + Join(", ", seq(|atoms|, i requires 0 <= i < |atoms| => ReprAtom(atoms[i]))) + "]"
    case Group(fields) => ReprDict(seq(|fields|, i requires 0 <= i < |fields| => (fields[i].0, Some(fields[i].1))))
  }

  /** Characters `repr` writes as `\xhh` (those of U+0000 to U+00FF that are not printable). */
  predicate HexEscaped(c: char)
  {
    c as int < 0x20 || (0x7f <= c as int <= 0xa0) || c as int == 0xad
  }

  function HexDigit(n: nat): char
    requires n < 16
  {
    if n < 10 then ('0' as int + n) as char else ('a' as int + n - 10) as char
  }

  /** `repr` of one character inside quotes `q`. */
  function EscapeChar(c: char, q: char): string
  {
    if c == '\\' then "\\\\"
    else if c == q then ['\\', q]
    else if c == '\t' then "\\t"
    else if c == '\n' then "\\n"
    else if c == '\r' then "\\r"
    else if HexEscaped(c) then "\\x" + [HexDigit(c as int / 16), HexDigit(c as int % 16)]
    else [c]
  }

  function Escape(s: string, q: char): string
  {
    if s == [] then [] else EscapeChar(s[0], q) + Escape(s[1..], q)
  }

  /** Python picks double quotes only for a string that holds `'` and no `"`. */
  function QuoteOf(s: string): char
  {
    if '\'' in s && '"' !in s then '"' else '\''
  }

  /** `repr(s)` of a string. */
  function ReprStr(s: string): string
  {
    var q := QuoteOf(s);
    [q] + Escape(s, q) + [q]
  }

  function ReprValue(v: Option<string>): string
  {
    if v.Some? then ReprStr(v.value) else "None"
  }

  function ReprPairs(pairs: seq<(string, Option<string>)>): string
  {
    if pairs == [] then []
    else
      var head := ReprStr(pairs[0].0) + ": " + ReprValue(pairs[0].1);
      if |pairs| == 1 then head else head + ", " + ReprPairs(pairs[1..])
  }

  /** `repr(d)` of a dictionary: braces around `key: value` pairs in insertion order. */
  function ReprDict(pairs: seq<(string, Option<string>)>): string
  {
    "{" + ReprPairs(pairs) + "}"
  }

  /** Text with nothing to escape. */
  predicate Plain(s: string)
  {
    forall i :: 0 <= i < |s| ==> PlainChar(s[i])
  }

  predicate PlainChar(c: char)
  {
    c != '\\' && c != '\'' && c != '"' && c != '\t' && c != '\n' && c != '\r' && !HexEscaped(c)
  }

  lemma {:induction false} EscapePlain(s: string, q: char)
    requires Plain(s) && (q == '\'' || q == '"')
    ensures Escape(s, q) == s
  {
    if s != [] {
      EscapePlain(s[1..], q);
    }
  }

  /** Plain text is shown between single quotes, as it is. */
  lemma ReprPlain(s: string)
    requires Plain(s)
    ensures ReprStr(s) == "'" + s + "'"
  {
    assert '\'' !in s;
    EscapePlain(s, '\'');
  }

  /** `str(d)` of a two-entry dictionary: each key and value in repr, in insertion order. */
  lemma ReprTwo(a: string, x: string, b: string, y: string)
    ensures ReprDict([(a, Some(x)), (b, Some(y))])
      == "{" + (((ReprStr(a) + ": ") + ReprStr(x)) + ", " + ((ReprStr(b) + ": ") + ReprStr(y))) + "}"
  {
    var pairs := [(a, Some(x)), (b, Some(y))];
    assert pairs[1..] == [(b, Some(y))];
    assert ReprPairs(pairs[1..]) == (ReprStr(b) + ": ") + ReprStr(y);
    assert ReprPairs(pairs) == ((ReprStr(a) + ": ") + ReprStr(x)) + ", " + ReprPairs(pairs[1..]);
  }

  /** `str(d)` of a two-entry dictionary of plain text: each key and value between single quotes. */
  lemma PlainPair(a: string, x: string, b: string, y: string)
    requires Plain(a) && Plain(x) && Plain(b) && Plain(y)
    ensures ReprDict([(a, Some(x)), (b, Some(y))]) == "{'" + a + "': '" + x + "', '" + b + "': '" + y + "'}"
  {
    ReprTwo(a, x, b, y);
    ReprPlain(a);
    ReprPlain(x);
    ReprPlain(b);
    ReprPlain(y);
    QuotedBraces(ReprStr(a), ReprStr(x), ReprStr(b), ReprStr(y), a, x, b, y);
  }

  lemma QuotedBraces(ra: string, rx: string, rb: string, ry: string, a: string, x: string, b: string, y: string)
    requires ra == "'" + a + "'" && rx == "'" + x + "'" && rb == "'" + b + "'" && ry == "'" + y + "'"
    ensures "{" + (((ra + ": ") + rx) + ", " + ((rb + ": ") + ry)) + "}"
      == "{'" + a + "': '" + x + "', '" + b + "': '" + y + "'}"
  {
  }

  /** Reading an escaped string back: the inverse of `Escape`. */
  function Unescape(s: string): string
    decreases |s|
  {
    if s == [] then []
    else if s[0] == '\\' && |s| >= 4 && s[1] == 'x' && IsHex(s[2]) && IsHex(s[3]) then
      [(HexValue(s[2]) * 16 + HexValue(s[3])) as char] + Unescape(s[4..])
    else if s[0] == '\\' && |s| >= 2 then
      [if s[1] == 't' then '\t' else if s[1] == 'n' then '\n' else if s[1] == 'r' then '\r' else s[1]]
      + Unescape(s[2..])
    else [s[0]] + Unescape(s[1..])
  }

  predicate IsHex(c: char)
  {
    ('0' <= c <= '9') || ('a' <= c <= 'f')
  }

  function HexValue(c: char): nat
    requires IsHex(c)
  {
    if c <= '9' then c as int - '0' as int else c as int - 'a' as int + 10
  }

  lemma HexRoundTrip(n: nat)
    requires n < 16
    ensures IsHex(HexDigit(n)) && HexValue(HexDigit(n)) == n
  {
  }

  lemma EscapeCharUnescape(c: char, q: char, rest: string)
    requires q == '\'' || q == '"'
    ensures Unescape(EscapeChar(c, q) + rest) == [c] + Unescape(rest)
  {
    var e := EscapeChar(c, q);
    if c == '\\' || c == q || c == '\t' || c == '\n' || c == '\r' {
      assert (e + rest)[2..] == rest;
    } else if HexEscaped(c) {
      var hi, lo := c as int / 16, c as int % 16;
      HexRoundTrip(hi);
      HexRoundTrip(lo);
      assert (e + rest)[4..] == rest;
      assert hi * 16 + lo == c as int;
    } else {
      assert (e + rest)[1..] == rest;
    }
  }

  /** Escaping loses nothing: `Unescape` reads back the original string. */
  lemma {:induction false} EscapeRoundTrip(s: string, q: char)
    requires q == '\'' || q == '"'
    ensures Unescape(Escape(s, q)) == s
  {
    if s != [] {
      EscapeCharUnescape(s[0], q, Escape(s[1..], q));
      EscapeRoundTrip(s[1..], q);
    }
  }

  /** Inside the quotes of `repr(s)`, every quote character of the kind used is preceded by a backslash. */
  lemma {:induction false} EscapeHidesQuote(s: string, q: char, i: nat)
    requires q == '\'' || q == '"'
    requires i < |Escape(s, q)| && Escape(s, q)[i] == q
    ensures i > 0 && Escape(s, q)[i - 1] == '\\'
    decreases |s|
  {
    var e := EscapeChar(s[0], q);
    var rest := Escape(s[1..], q);
    assert Escape(s, q) == e + rest;
    if i >= |e| {
      EscapeHidesQuote(s[1..], q, i - |e|);
      assert Escape(s, q)[i - 1] == rest[i - |e| - 1];
    }
  }
}
