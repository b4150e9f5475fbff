/** The canonical URL under which the extension files a resource. */
module DedupUrl {
  import opened Prelude

  /** Names and values as UTF-16 code units, the order in which parameters are sorted. */
  type Text = seq<nat>

  datatype Param = Param(name: Text, value: Text)

  /** A parsed URL: everything before the query, the query's parameters, the fragment. */
  datatype Url = Url(prefix: Text, params: seq<Param>, hash: Option<Text>)

  /** Whether a name, lower-cased, is among the stripped parameters. */
  type Noise = Text -> bool

  // ---------- the order of names ----------

  predicate Leq(a: Text, b: Text) {
    a == [] || (b != [] && (a[0] < b[0] || (a[0] == b[0] && Leq(a[1..], b[1..]))))
  }

  lemma {:induction false} LeqTotal(a: Text, b: Text)
    ensures Leq(a, b) || Leq(b, a)
  {
    if a != [] && b != [] && a[0] == b[0] {
      LeqTotal(a[1..], b[1..]);
    }
  }

  lemma {:induction false} LeqAntisymmetric(a: Text, b: Text)
    requires Leq(a, b) && Leq(b, a)
    ensures a == b
  {
    if a != [] && b != [] {
      LeqAntisymmetric(a[1..], b[1..]);
      assert a == [a[0]] + a[1..] && b == [b[0]] + b[1..];
    }
  }

  lemma {:induction false} LeqTransitive(a: Text, b: Text, c: Text)
    requires Leq(a, b) && Leq(b, c)
    ensures Leq(a, c)
  {
    if a != [] && a[0] == b[0] && b[0] == c[0] {
      LeqTransitive(a[1..], b[1..], c[1..]);
    }
  }

  // ---------- parameters ----------

  function Quiet(s: seq<Param>, noise: Noise): seq<Param> {
    if s == [] then [] else (if noise(s[0].name) then [] else [s[0]]) + Quiet(s[1..], noise)
  }

  function Insert(p: Param, s: seq<Param>): seq<Param> {
    if s == [] || Leq(p.name, s[0].name) then [p] + s else [s[0]] + Insert(p, s[1..])
  }

  /** The stable sort by name. */
  function Sorted(s: seq<Param>): seq<Param> {
    if s == [] then [] else Insert(s[0], Sorted(s[1..]))
  }

  predicate Ordered(s: seq<Param>) {
    forall i, j :: 0 <= i < j < |s| ==> Leq(s[i].name, s[j].name)
  }

  /** The values a name carries, in order. */
  function Values(s: seq<Param>, name: Text): seq<Text> {
    if s == [] then [] else (if s[0].name == name then [s[0].value] else []) + Values(s[1..], name)
  }

  function Canon(u: Url, noise: Noise): Url {
    Url(u.prefix, Sorted(Quiet(u.params, noise)), None)
  }

  /** The two URLs agree outside query and fragment, and every name that is not stripped carries
      the same values in the same order. */
  ghost predicate SameResource(u: Url, v: Url, noise: Noise) {
    u.prefix == v.prefix && forall name :: !noise(name) ==> Values(u.params, name) == Values(v.params, name)
  }

  lemma {:induction false} ValuesOfInsert(p: Param, s: seq<Param>, name: Text)
    ensures Values(Insert(p, s), name) == (if p.name == name then [p.value] else []) + Values(s, name)
  {
    if s == [] || Leq(p.name, s[0].name) {
      assert ([p] + s)[1..] == s;
    } else {
      var rest := Insert(p, s[1..]);
      ValuesOfInsert(p, s[1..], name);
      assert ([s[0]] + rest)[1..] == rest;
      LeqTotal(p.name, p.name);
      assert p.name != s[0].name;
      if s[0].name == name {
        assert Values(Insert(p, s), name) == [s[0].value] + Values(rest, name);
      } else {
        assert Values(Insert(p, s), name) == [] + Values(rest, name) == Values(rest, name);
      }
    }
  }

  lemma {:induction false} ValuesOfSorted(s: seq<Param>, name: Text)
    ensures Values(Sorted(s), name) == Values(s, name)
  {
    if s != [] {
      ValuesOfSorted(s[1..], name);
      ValuesOfInsert(s[0], Sorted(s[1..]), name);
    }
  }

  lemma {:induction false} ValuesOfQuiet(s: seq<Param>, noise: Noise, name: Text)
    ensures Values(Quiet(s, noise), name) == if noise(name) then [] else Values(s, name)
  {
    if s != [] {
      var q := Quiet(s[1..], noise);
      ValuesOfQuiet(s[1..], noise, name);
      if !noise(s[0].name) {
        assert ([s[0]] + q)[1..] == q;
      } else {
        assert [] + q == q;
      }
    }
  }

  lemma {:induction false} InsertOrdered(p: Param, s: seq<Param>)
    requires Ordered(s)
    ensures Ordered(Insert(p, s))
    ensures forall q <- Insert(p, s) :: q == p || q in s
  {
    if s == [] {
    } else if Leq(p.name, s[0].name) {
      forall j | 0 <= j < |s| ensures Leq(p.name, s[j].name) {
        if j > 0 {
          LeqTransitive(p.name, s[0].name, s[j].name);
        }
      }
    } else {
      InsertOrdered(p, s[1..]);
      LeqTotal(p.name, s[0].name);
      var r := Insert(p, s[1..]);
      forall j | 0 <= j < |r| ensures Leq(s[0].name, r[j].name) {
        assert r[j] in r;
      }
    }
  }

  lemma {:induction false} SortedOrdered(s: seq<Param>)
    ensures Ordered(Sorted(s))
  {
    if s != [] {
      SortedOrdered(s[1..]);
      InsertOrdered(s[0], Sorted(s[1..]));
    }
  }

  lemma {:induction false} ValuesShowNames(s: seq<Param>, name: Text)
    ensures Values(s, name) != [] <==> exists i :: 0 <= i < |s| && s[i].name == name
  {
    if s != [] {
      ValuesShowNames(s[1..], name);
      if i :| 0 < i < |s| && s[i].name == name {
        assert s[1..][i - 1].name == name;
      }
    }
  }

  /** An ordered list's first name is the least of the names that carry a value. */
  lemma HeadIsLeast(s: seq<Param>, t: seq<Param>)
    requires Ordered(s) && s != []
    requires forall name :: Values(s, name) == Values(t, name)
    ensures t != [] && (Ordered(t) ==> Leq(t[0].name, s[0].name))
  {
    ValuesShowNames(s, s[0].name);
    ValuesShowNames(t, s[0].name);
    var i :| 0 <= i < |t| && t[i].name == s[0].name;
    LeqTotal(t[0].name, t[0].name);
  }

  /** Ordered parameter lists are determined by the values of each name. */
  lemma {:induction false} OrderedUnique(s: seq<Param>, t: seq<Param>)
    requires Ordered(s) && Ordered(t)
    requires forall name :: Values(s, name) == Values(t, name)
    ensures s == t
  {
    if s == [] {
      if t != [] {
        HeadIsLeast(t, s);
      }
    } else {
      HeadIsLeast(s, t);
      HeadIsLeast(t, s);
      LeqAntisymmetric(s[0].name, t[0].name);
      var name := s[0].name;
      assert Values(s, name) == [s[0].value] + Values(s[1..], name);
      assert Values(t, name) == [t[0].value] + Values(t[1..], name);
      assert s[0].value == Values(s, name)[0] == Values(t, name)[0] == t[0].value;
      forall n ensures Values(s[1..], n) == Values(t[1..], n) {
        var skip := if n == name then 1 else 0;
        assert Values(s[1..], n) == Values(s, n)[skip..];
        assert Values(t[1..], n) == Values(t, n)[skip..];
      }
      OrderedUnique(s[1..], t[1..]);
      assert s == [s[0]] + s[1..] && t == [t[0]] + t[1..];
    }
  }

  lemma ValuesOfCanon(u: Url, noise: Noise, name: Text)
    ensures Values(Canon(u, noise).params, name) == if noise(name) then [] else Values(u.params, name)
  {
    ValuesOfSorted(Quiet(u.params, noise), name);
    ValuesOfQuiet(u.params, noise, name);
  }

  /** Two URLs have the same canonical form exactly when they name the same resource. */
  lemma CanonIff(u: Url, v: Url, noise: Noise)
    ensures Canon(u, noise) == Canon(v, noise) <==> SameResource(u, v, noise)
  {
    var cu, cv := Canon(u, noise), Canon(v, noise);
    forall name ensures Values(cu.params, name) == if noise(name) then [] else Values(u.params, name) {
      ValuesOfCanon(u, noise, name);
    }
    forall name ensures Values(cv.params, name) == if noise(name) then [] else Values(v.params, name) {
      ValuesOfCanon(v, noise, name);
    }
    if SameResource(u, v, noise) {
      SortedOrdered(Quiet(u.params, noise));
      SortedOrdered(Quiet(v.params, noise));
      OrderedUnique(cu.params, cv.params);
    }
  }

  lemma CanonIdempotent(u: Url, noise: Noise)
    ensures Canon(Canon(u, noise), noise) == Canon(u, noise)
  {
    forall name | !noise(name) ensures Values(Canon(u, noise).params, name) == Values(u.params, name) {
      ValuesOfCanon(u, noise, name);
    }
    CanonIff(Canon(u, noise), u, noise);
  }

  // ---------- strings ----------

  datatype Codec = Codec(parse: Text -> Option<Url>, show: Url -> Text)

  /** The canonical form of whatever a text parses to, printed, parses back to itself. */
  ghost predicate Faithful(c: Codec, noise: Noise) {
    forall t :: c.parse(t).Some? ==>
      var u := Canon(c.parse(t).value, noise);
      c.parse(c.show(u)) == Some(u)
  }

  function NormalizeUrlForDedup(url: Text, c: Codec, noise: Noise): Text {
    match c.parse(url)
    case None => url
    case Some(u) => c.show(Canon(u, noise))
  }

  lemma NormalizeIdempotent(url: Text, c: Codec, noise: Noise)
    requires Faithful(c, noise)
    ensures NormalizeUrlForDedup(NormalizeUrlForDedup(url, c, noise), c, noise) == NormalizeUrlForDedup(url, c, noise)
  {
    match c.parse(url)
    case None =>
    case Some(u) =>
      CanonIdempotent(u, noise);
      assert c.parse(c.show(Canon(u, noise))) == Some(Canon(u, noise));
  }

  /** The dedup key is a true canonical form: equal keys for the same resource and no others; text
      that is no URL shares its key with nothing else. */
  lemma NormalizeIff(x: Text, y: Text, c: Codec, noise: Noise)
    requires Faithful(c, noise)
    ensures NormalizeUrlForDedup(x, c, noise) == NormalizeUrlForDedup(y, c, noise) <==>
      match (c.parse(x), c.parse(y))
      case (Some(u), Some(v)) => SameResource(u, v, noise)
      case (None, None) => x == y
      case (_, _) => false
  {
    match (c.parse(x), c.parse(y))
    case (Some(u), Some(v)) =>
      CanonIff(u, v, noise);
      assert c.parse(c.show(Canon(u, noise))) == Some(Canon(u, noise));
      assert c.parse(c.show(Canon(v, noise))) == Some(Canon(v, noise));
    case (None, None) =>
    case (Some(u), None) =>
      assert c.parse(c.show(Canon(u, noise))) == Some(Canon(u, noise));
    case (None, Some(v)) =>
      assert c.parse(c.show(Canon(v, noise))) == Some(Canon(v, noise));
  }

  // ---------- editing the URL in place ----------

  function Without(s: seq<Param>, names: seq<Text>): seq<Param> {
    if s == [] then [] else (if s[0].name in names then [] else [s[0]]) + Without(s[1..], names)
  }

  lemma {:induction false} WithoutMore(s: seq<Param>, names: seq<Text>, name: Text)
    ensures Without(Without(s, names), [name]) == Without(s, names + [name])
  {
    if s != [] {
      WithoutMore(s[1..], names, name);
      var rest := Without(s[1..], names);
      if s[0].name !in names {
        assert ([s[0]] + rest)[1..] == rest;
      } else {
        assert [] + rest == rest;
      }
    }
  }

  lemma {:induction false} WithoutNoise(s: seq<Param>, names: seq<Text>, noise: Noise)
    requires forall name <- names :: noise(name)
    requires forall p <- s :: noise(p.name) ==> p.name in names
    ensures Without(s, names) == Quiet(s, noise)
  {
    if s != [] {
      WithoutNoise(s[1..], names, noise);
    }
  }

  lemma {:induction false} WithoutNone(s: seq<Param>)
    ensures Without(s, []) == s
  {
    if s != [] {
      WithoutNone(s[1..]);
    }
  }

  class UrlObject {
    var prefix: Text
    var params: seq<Param>
    var hash: Option<Text>

    ghost function Value(): Url
      reads this
    {
      Url(prefix, params, hash)
    }

    constructor (u: Url)
      ensures Value() == u
    {
      prefix, params, hash := u.prefix, u.params, u.hash;
    }

    /** Removes every parameter of the name. */
    method Delete(name: Text)
      modifies `params
      ensures params == Without(old(params), [name])
    {
      params := Without(params, [name]);
    }

    method Sort()
      modifies `params
      ensures params == Sorted(old(params))
    {
      params := Sorted(params);
    }

    method Canonicalize(noise: Noise)
      modifies this
      ensures Value() == Canon(old(Value()), noise)
    {
      hash := None;
      ghost var was := params;
      var toDelete := [];
      for i := 0 to |params|
        invariant params == was && prefix == old(prefix) && hash == None
        invariant forall name <- toDelete :: noise(name)
        invariant forall j :: 0 <= j < i && noise(was[j].name) ==> was[j].name in toDelete
      {
        if noise(params[i].name) {
          toDelete := toDelete + [params[i].name];
        }
      }
      WithoutNone(was);
      for i := 0 to |toDelete|
        invariant params == Without(was, toDelete[..i]) && prefix == old(prefix) && hash == None
      {
        Delete(toDelete[i]);
        WithoutMore(was, toDelete[..i], toDelete[i]);
        assert toDelete[..i + 1] == toDelete[..i] + [toDelete[i]];
      }
      assert toDelete[..|toDelete|] == toDelete;
      WithoutNoise(was, toDelete, noise);
      Sort();
    }
  }
}
