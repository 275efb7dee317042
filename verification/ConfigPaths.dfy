// config/schema.py: flattening a nested configuration to dotted paths, and writing dotted
// overrides back into a nested configuration.
//
// A mapping's iteration order is left open: every statement holds for any order.

module ConfigPaths {
  import opened Types

  datatype Scalar =
    | Null
    | Bool(b: bool)
    | Int(i: int)
    | Float(r: real)
    | Str(s: string)
    | List(items: seq<Scalar>)

  datatype Node = Leaf(value: Scalar) | Dict(entries: map<string, Node>)

  type Path = seq<string>

  /** `type(old)(new)`: what a value becomes when it replaces a leaf, or a whole section.
      A conversion that raises keeps the new value. */
  datatype Coercion = Coercion(leaf: (Scalar, Scalar) -> Scalar, section: (map<string, Node>, Scalar) -> Node)

  // ── Dotted keys ──

  predicate DotFree(s: string) {
    '.' !in s
  }

  predicate DotFreePath(p: Path) {
    forall s :: s in p ==> DotFree(s)
  }

  /** `s.split(".")`. */
  function Split(s: string): (parts: Path)
    ensures parts != [] && DotFreePath(parts)
  {
    if s == "" then [""]
    else
      var rest := Split(s[1..]);
      if s[0] == '.' then [""] + rest
      else
        assert DotFree(rest[0]) && DotFree([s[0]] + rest[0]);
        assert forall t :: t in rest[1..] ==> t in rest;
        [[s[0]] + rest[0]] + rest[1..]
  }

  function Join(parts: Path): string
    requires parts != []
  {
    if |parts| == 1 then parts[0] else parts[0] + "." + Join(parts[1..])
  }

  lemma {:induction false} SplitOfDotFree(a: string)
    requires DotFree(a)
    ensures Split(a) == [a]
  {
    if a != "" {
      SplitOfDotFree(a[1..]);
      assert [a[0]] + a[1..] == a;
    }
  }

  lemma {:induction false} SplitFirst(a: string, rest: string)
    requires DotFree(a)
    ensures Split(a + "." + rest) == [a] + Split(rest)
  {
    var s := a + "." + rest;
    if a == "" {
      assert s[0] == '.' && s[1..] == rest;
    } else {
      assert s[1..] == a[1..] + "." + rest;
      SplitFirst(a[1..], rest);
      assert [a[0]] + a[1..] == a;
    }
  }

  lemma {:induction false} SplitJoin(parts: Path)
    requires parts != [] && DotFreePath(parts)
    ensures Split(Join(parts)) == parts
  {
    if |parts| == 1 {
      SplitOfDotFree(parts[0]);
    } else {
      SplitJoin(parts[1..]);
      SplitFirst(parts[0], Join(parts[1..]));
    }
  }

  lemma {:induction false} JoinSplit(s: string)
    ensures Join(Split(s)) == s
  {
    if s != "" {
      var rest := Split(s[1..]);
      JoinSplit(s[1..]);
      if s[0] != '.' {
        var first := [s[0]] + rest[0];
        assert [first] + rest[1..] == Split(s);
        if |rest| > 1 {
          assert ([first] + rest[1..])[1..] == rest[1..];
        }
        assert Join(Split(s)) == [s[0]] + Join(rest);
      }
      assert [s[0]] + s[1..] == s;
    }
  }

  /** The key that a section's entry gets, given the section's own key. */
  function Extend(prefix: string, k: string): string {
    if prefix != "" then prefix + "." + k else k
  }

  /** The flat key of the entry at path p below a section with key `prefix`. */
  function KeyOf(prefix: string, p: Path): string
    decreases |p|
  {
    if p == [] then prefix else KeyOf(Extend(prefix, p[0]), p[1..])
  }

  lemma {:induction false} KeyBelow(prefix: string, p: Path)
    requires prefix != "" && p != []
    ensures KeyOf(prefix, p) == prefix + "." + Join(p)
    decreases |p|
  {
    if |p| > 1 {
      KeyBelow(Extend(prefix, p[0]), p[1..]);
      assert prefix + "." + p[0] + "." + Join(p[1..]) == prefix + "." + Join(p);
    } else {
      assert p[1..] == [];
    }
  }

  lemma KeyIsJoin(p: Path)
    requires p != [] && (|p| == 1 || p[0] != "")
    ensures KeyOf("", p) == Join(p)
  {
    if |p| == 1 {
      assert p[1..] == [];
    } else {
      KeyBelow(p[0], p[1..]);
    }
  }

  // Leading empty keys vanish, so a flat key never starts with a dot.
  lemma {:induction false} KeyHasNoLeadingDot(p: Path)
    requires DotFreePath(p)
    ensures KeyOf("", p) == "" || KeyOf("", p)[0] != '.'
  {
    if p != [] {
      if p[0] == "" {
        KeyHasNoLeadingDot(p[1..]);
      } else if |p| > 1 {
        KeyBelow(p[0], p[1..]);
        assert DotFree(p[0]) && p[0][0] in p[0];
      } else {
        assert p[1..] == [] && DotFree(p[0]) && p[0][0] in p[0];
      }
    }
  }

  // ── Nested configurations ──

  /** The leaf at path p, if there is one. */
  function LeafAt(n: Node, p: Path): Option<Scalar>
    decreases n
  {
    match n
    case Leaf(v) => if p == [] then Some(v) else None
    case Dict(m) => if p != [] && p[0] in m then LeafAt(m[p[0]], p[1..]) else None
  }

  ghost predicate NoEmptySections(m: map<string, Node>)
    decreases Dict(m)
  {
    forall k :: k in m ==> m[k].Dict? ==> m[k].entries != map[] && NoEmptySections(m[k].entries)
  }

  ghost predicate DotFreeKeys(m: map<string, Node>)
    decreases Dict(m)
  {
    forall k :: k in m ==> DotFree(k) && (m[k].Dict? ==> DotFreeKeys(m[k].entries))
  }

  /** The configurations whose flat form loses nothing. The empty key may name a leaf or lie
      deeper down; only an empty top-level section name disappears from the flat keys. */
  ghost predicate Flattenable(m: map<string, Node>) {
    NoEmptySections(m) && DotFreeKeys(m) && ("" in m ==> m[""].Leaf?)
  }

  lemma {:induction false} LeafPathShape(m: map<string, Node>, p: Path)
    requires DotFreeKeys(m) && LeafAt(Dict(m), p).Some?
    ensures p != [] && DotFreePath(p)
    decreases Dict(m)
  {
    if m[p[0]].Dict? {
      LeafPathShape(m[p[0]].entries, p[1..]);
    } else {
      assert p == [p[0]];
    }
    forall s | s in p
      ensures DotFree(s)
    {
      if s != p[0] {
        assert s in p[1..];
      }
    }
  }

  // In a tree no leaf lies below a leaf.
  lemma {:induction false} LeavesAreNotNested(n: Node, p: Path, q: Path)
    requires LeafAt(n, p).Some? && p < q
    ensures LeafAt(n, q).None?
    decreases n
  {
    if n.Dict? && q[0] in n.entries {
      assert p[0] == q[0] && p[1..] < q[1..];
      LeavesAreNotNested(n.entries[p[0]], p[1..], q[1..]);
    }
  }

  // A section that is not empty, and has no empty section in it, has a leaf.
  lemma {:induction false} SomeLeaf(m: map<string, Node>) returns (p: Path)
    requires m != map[] && NoEmptySections(m)
    ensures LeafAt(Dict(m), p).Some?
    decreases Dict(m)
  {
    var k :| k in m;
    if m[k].Dict? {
      var q := SomeLeaf(m[k].entries);
      p := [k] + q;
      assert p[1..] == q;
    } else {
      p := [k];
    }
  }

  ghost predicate SameLeaves(a: map<string, Node>, b: map<string, Node>) {
    forall p :: LeafAt(Dict(a), p) == LeafAt(Dict(b), p)
  }

  /** Without empty sections, a configuration is determined by its leaves. */
  lemma {:induction false} SameLeavesSameConfig(a: map<string, Node>, b: map<string, Node>)
    requires NoEmptySections(a) && NoEmptySections(b) && SameLeaves(a, b)
    ensures a == b
    decreases Dict(a)
  {
    forall k
      ensures k in a <==> k in b
    {
      if k in a {
        SharedKey(a, b, k);
      }
      if k in b {
        SharedKey(b, a, k);
      }
    }
    forall k | k in a
      ensures a[k] == b[k]
    {
      SameBelow(a, b, k);
      if a[k].Dict? {
        assert LeafAt(b[k], []) == LeafAt(a[k], []) == None;
        SameLeavesSameConfig(a[k].entries, b[k].entries);
      }
    }
  }

  lemma SameBelow(a: map<string, Node>, b: map<string, Node>, k: string)
    requires SameLeaves(a, b) && k in a && k in b
    ensures forall p :: LeafAt(a[k], p) == LeafAt(b[k], p)
    ensures a[k].Leaf? ==> b[k] == a[k]
    ensures a[k].Dict? ==> b[k].Dict?
  {
    forall p
      ensures LeafAt(a[k], p) == LeafAt(b[k], p)
    {
      LeafAtChild(a, k, p);
      LeafAtChild(b, k, p);
      assert LeafAt(Dict(a), [k] + p) == LeafAt(Dict(b), [k] + p);
    }
    assert LeafAt(a[k], []) == LeafAt(b[k], []);
  }

  lemma SharedKey(a: map<string, Node>, b: map<string, Node>, k: string)
    requires NoEmptySections(a) && SameLeaves(a, b) && k in a
    ensures k in b
  {
    if a[k].Leaf? {
      LeafAtChild(a, k, []);
      assert [k] + [] == [k];
      assert LeafAt(Dict(a), [k]) == LeafAt(Dict(b), [k]);
    } else {
      var q := SomeLeaf(a[k].entries);
      LeafAtChild(a, k, q);
      assert LeafAt(Dict(a), [k] + q) == LeafAt(Dict(b), [k] + q);
    }
  }

  // ── Flattening ──

  /** `flat` holds exactly the flat keys of n's leaves, each with the value of such a leaf. */
  ghost predicate Flattens(n: Node, prefix: string, flat: map<string, Scalar>) {
    && (forall p :: LeafAt(n, p).Some? ==> KeyOf(prefix, p) in flat)
    && (forall s :: s in flat ==> exists p :: KeyOf(prefix, p) == s && LeafAt(n, p) == Some(flat[s]))
  }

  method Flatten(d: Node, prefix: string) returns (result: map<string, Scalar>)
    requires d.Dict?
    ensures Flattens(d, prefix, result)
    decreases d
  {
    result := map[];
    var rest := d.entries.Keys;
    ghost var done := map[];
    assert Flattens(Dict(done), prefix, result);
    hide KeyOf, LeafAt;
    while rest != {}
      invariant rest <= d.entries.Keys
      invariant done == map k | k in d.entries && k !in rest :: d.entries[k]
      invariant Flattens(Dict(done), prefix, result)
    {
      var k :| k in rest;
      rest := rest - {k};
      var key := Extend(prefix, k);
      match d.entries[k] {
        case Dict(_) =>
          var sub := Flatten(d.entries[k], key);
          FlattensMore(done, prefix, result, k, d.entries[k], sub);
          result := result + sub;
        case Leaf(v) =>
          FlattensLeaf(v, key);
          FlattensMore(done, prefix, result, k, d.entries[k], map[key := v]);
          assert result[key := v] == result + map[key := v];
          result := result[key := v];
      }
      ghost var all := Dict(done[k := d.entries[k]]);
      assert Flattens(all, prefix, result);
      done := all.entries;
    }
    assert done == d.entries;
  }

  lemma FlattensLeaf(v: Scalar, key: string)
    ensures Flattens(Leaf(v), key, map[key := v])
  {
    assert KeyOf(key, []) == key && LeafAt(Leaf(v), []) == Some(v);
  }

  lemma FlattensMore(m: map<string, Node>, prefix: string, flat: map<string, Scalar>,
                     k: string, n: Node, sub: map<string, Scalar>)
    requires k !in m
    requires Flattens(Dict(m), prefix, flat) && Flattens(n, Extend(prefix, k), sub)
    ensures Flattens(Dict(m[k := n]), prefix, flat + sub)
  {
    var all := Dict(m[k := n]);
    forall p | LeafAt(all, p).Some?
      ensures KeyOf(prefix, p) in flat + sub
    {
      if p[0] == k {
        assert LeafAt(n, p[1..]).Some?;
      } else {
        assert LeafAt(Dict(m), p).Some?;
      }
    }
    forall s | s in flat + sub
      ensures exists p :: KeyOf(prefix, p) == s && LeafAt(all, p) == Some((flat + sub)[s])
    {
      if s in sub {
        var q :| KeyOf(Extend(prefix, k), q) == s && LeafAt(n, q) == Some(sub[s]);
        var p := [k] + q;
        assert p[1..] == q;
        assert KeyOf(prefix, p) == s && LeafAt(all, p) == Some((flat + sub)[s]);
      } else {
        var p :| KeyOf(prefix, p) == s && LeafAt(Dict(m), p) == Some(flat[s]);
        assert p[0] != k;
        assert LeafAt(all, p) == Some((flat + sub)[s]);
      }
    }
  }

  /** For a flattenable configuration the flat form has one entry for each leaf. */
  lemma FlatForm(o: map<string, Node>, flat: map<string, Scalar>)
    requires Flattenable(o) && Flattens(Dict(o), "", flat)
    ensures forall s :: s in flat ==> LeafAt(Dict(o), Split(s)) == Some(flat[s])
    ensures forall p :: LeafAt(Dict(o), p).Some? ==>
      p != [] && Split(Join(p)) == p && Join(p) in flat && LeafAt(Dict(o), p) == Some(flat[Join(p)])
  {
    forall s | s in flat
      ensures LeafAt(Dict(o), Split(s)) == Some(flat[s])
    {
      var p :| KeyOf("", p) == s && LeafAt(Dict(o), p) == Some(flat[s]);
      LeafKey(o, p);
    }
    forall p | LeafAt(Dict(o), p).Some?
      ensures p != [] && Split(Join(p)) == p && Join(p) in flat && LeafAt(Dict(o), p) == Some(flat[Join(p)])
    {
      LeafKey(o, p);
    }
  }

  lemma LeafKey(o: map<string, Node>, p: Path)
    requires Flattenable(o) && LeafAt(Dict(o), p).Some?
    ensures p != [] && KeyOf("", p) == Join(p) && Split(Join(p)) == p
  {
    LeafPathShape(o, p);
    if p[0] == "" {
      assert LeafAt(o[""], p[1..]).Some?;
    }
    KeyIsJoin(p);
    SplitJoin(p);
  }

  // ── Overriding ──

  /** Writes one value at a path, making the sections it needs. None is the TypeError that
      a path through a leaf raises. */
  function Put(c: Coercion, m: map<string, Node>, parts: Path, v: Scalar): Option<map<string, Node>>
    requires parts != []
    decreases |parts|
  {
    var k := parts[0];
    if |parts| == 1 then
      Some(m[k := if k in m && v != Null then Convert(c, m[k], v) else Leaf(v)])
    else
      match if k in m then m[k] else Dict(map[])
      case Leaf(_) => None
      case Dict(sub) =>
        match Put(c, sub, parts[1..], v)
        case None => None
        case Some(sub') => Some(m[k := Dict(sub')])
  }

  function Convert(c: Coercion, was: Node, v: Scalar): Node {
    match was
    case Leaf(w) => Leaf(c.leaf(w, v))
    case Dict(sub) => c.section(sub, v)
  }

  /** The overrides applied one after another in the given order. */
  function PutAll(c: Coercion, m: map<string, Node>, order: seq<string>, overrides: map<string, Scalar>)
    : Option<map<string, Node>>
    requires forall s :: s in order ==> s in overrides
  {
    if order == [] then Some(m)
    else
      var n := |order| - 1;
      match PutAll(c, m, order[..n], overrides)
      case None => None
      case Some(m') => Put(c, m', Split(order[n]), overrides[order[n]])
  }

  /** A list of all the keys, each once: one way a mapping can be iterated. */
  ghost predicate Enumerates(order: seq<string>, keys: set<string>) {
    && (forall s :: s in order <==> s in keys)
    && (forall i, j :: 0 <= i < j < |order| ==> order[i] != order[j])
  }

  method ApplyOverrides(c: Coercion, data: map<string, Node>, overrides: map<string, Scalar>)
    returns (result: Option<map<string, Node>>, ghost order: seq<string>)
    ensures Enumerates(order, overrides.Keys)
    ensures result == PutAll(c, data, order, overrides)
  {
    result, order := Some(data), [];
    var rest := overrides.Keys;
    while rest != {}
      invariant rest <= overrides.Keys && Enumerates(order, overrides.Keys - rest)
      invariant result == PutAll(c, data, order, overrides)
    {
      var path :| path in rest;
      rest := rest - {path};
      ghost var before := order;
      order := order + [path];
      assert order[..|order| - 1] == before;
      match result {
        case Some(m) => result := Put(c, m, Split(path), overrides[path]);
        case None =>
      }
    }
  }

  /** The node at path p, if there is one. */
  function NodeAt(n: Node, p: Path): Option<Node>
    decreases n
  {
    if p == [] then Some(n)
    else
      match n
      case Leaf(_) => None
      case Dict(m) => if p[0] in m then NodeAt(m[p[0]], p[1..]) else None
  }

  lemma {:induction false} LeafIsNode(n: Node, p: Path)
    ensures LeafAt(n, p) ==
      match NodeAt(n, p)
      case Some(Leaf(v)) => Some(v)
      case _ => None
    decreases n
  {
    if p != [] && n.Dict? && p[0] in n.entries {
      LeafIsNode(n.entries[p[0]], p[1..]);
    }
  }

  lemma {:induction false} NodeBelow(n: Node, p: Path, q: Path)
    requires NodeAt(n, p).Some?
    ensures NodeAt(n, p + q) == NodeAt(NodeAt(n, p).value, q)
    decreases n
  {
    if p == [] {
      assert p + q == q;
    } else {
      assert (p + q)[0] == p[0] && (p + q)[1..] == p[1..] + q;
      NodeBelow(n.entries[p[0]], p[1..], q);
    }
  }

  // The leaves at and below a node.
  lemma LeavesBelow(n: Node, p: Path, q: Path)
    requires NodeAt(n, p).Some? && p <= q
    ensures LeafAt(n, q) == LeafAt(NodeAt(n, p).value, q[|p|..])
  {
    assert q == p + q[|p|..];
    NodeBelow(n, p, q[|p|..]);
    LeafIsNode(n, q);
    LeafIsNode(NodeAt(n, p).value, q[|p|..]);
  }

  // What an override leaves at its path.
  function WrittenNode(c: Coercion, was: Option<Node>, v: Scalar): Node {
    if was.Some? && v != Null then Convert(c, was.value, v) else Leaf(v)
  }

  // No leaf strictly above `parts`.
  ghost predicate NothingAbove(m: map<string, Node>, parts: Path) {
    forall p :: p < parts ==> LeafAt(Dict(m), p).None?
  }

  lemma LeafAtChild(m: map<string, Node>, k: string, q: Path)
    requires k in m
    ensures LeafAt(Dict(m), [k] + q) == LeafAt(m[k], q)
  {
    assert ([k] + q)[1..] == q;
  }

  /** One override changes the node at its path, and outside of that no leaf and no node; it fails
      exactly when a leaf lies strictly above the path. */
  lemma {:induction false} PutNodes(c: Coercion, m: map<string, Node>, parts: Path, v: Scalar)
    requires parts != []
    ensures Put(c, m, parts, v).Some? <==> NothingAbove(m, parts)
    ensures Put(c, m, parts, v).Some? ==>
      OnlyChanged(m, Put(c, m, parts, v).value, parts, WrittenNode(c, NodeAt(Dict(m), parts), v))
    decreases |parts|
  {
    var k, tail := parts[0], parts[1..];
    if |parts| == 1 {
      assert parts == [k];
      assert NodeAt(Dict(m), parts) == if k in m then Some(m[k]) else None;
      forall p | p < parts
        ensures LeafAt(Dict(m), p).None?
      {
        assert p == [];
      }
    } else if k in m && m[k].Leaf? {
      assert [k] < parts && [k] + [] == [k];
      LeafAtChild(m, k, []);
      assert !NothingAbove(m, parts);
    } else {
      var sub := if k in m then m[k].entries else map[];
      PutNodes(c, sub, tail, v);
      AboveBelow(m, k, sub, parts);
      assert NodeAt(Dict(m), parts) == NodeAt(Dict(sub), tail);
      if Put(c, m, parts, v).Some? {
        var sub' := Put(c, sub, tail, v).value;
        assert Put(c, m, parts, v) == Some(m[k := Dict(sub')]);
        ChangedBelow(m, k, sub, sub', parts, WrittenNode(c, NodeAt(Dict(m), parts), v));
      }
    }
  }

  /** At `parts` is the node, and what is not at or below it is as before. */
  ghost predicate OnlyChanged(m: map<string, Node>, m': map<string, Node>, parts: Path, node: Node) {
    && NodeAt(Dict(m'), parts) == Some(node)
    && (forall q :: !(parts <= q) ==> LeafAt(Dict(m'), q) == LeafAt(Dict(m), q))
    && (forall q :: !(parts <= q) && !(q <= parts) ==> NodeAt(Dict(m'), q) == NodeAt(Dict(m), q))
  }

  lemma AboveBelow(m: map<string, Node>, k: string, sub: map<string, Node>, parts: Path)
    requires |parts| > 1 && parts[0] == k
    requires if k in m then m[k] == Dict(sub) else sub == map[]
    ensures NothingAbove(m, parts) <==> NothingAbove(sub, parts[1..])
  {
    var tail := parts[1..];
    SectionLeaves(m, k, sub);
    hide LeafAt;
    if NothingAbove(m, parts) {
      forall p | p < tail
        ensures LeafAt(Dict(sub), p).None?
      {
        assert [k] + p < parts;
      }
    } else {
      var p :| p < parts && LeafAt(Dict(m), p).Some?;
      assert p[1..] < tail && p == [k] + p[1..];
      assert LeafAt(Dict(sub), p[1..]).Some?;
      assert !NothingAbove(sub, tail);
    }
  }

  lemma SectionLeaves(m: map<string, Node>, k: string, sub: map<string, Node>)
    requires if k in m then m[k] == Dict(sub) else sub == map[]
    ensures forall q :: LeafAt(Dict(sub), q) == LeafAt(Dict(m), [k] + q)
    ensures LeafAt(Dict(m), []) == None
  {
    forall q
      ensures LeafAt(Dict(sub), q) == LeafAt(Dict(m), [k] + q)
    {
      if k in m {
        LeafAtChild(m, k, q);
      }
    }
  }

  // Changing a node of section k of m changes that node of m.
  /** An override leaves at its path what the conversion to the value or section that was there makes of it; a null,
      or an override of nothing, is left as it is. */
  lemma WrittenMeans(c: Coercion, m: map<string, Node>, parts: Path, v: Scalar)
    requires parts != [] && Put(c, m, parts, v).Some?
    ensures var was, now := NodeAt(Dict(m), parts), NodeAt(Dict(Put(c, m, parts, v).value), parts);
      && (was == None || v == Null ==> now == Some(Leaf(v)))
      && (was.Some? && was.value.Leaf? && v != Null ==> now == Some(Leaf(c.leaf(was.value.value, v))))
      && (was.Some? && was.value.Dict? && v != Null ==> now == Some(c.section(was.value.entries, v)))
  {
    PutNodes(c, m, parts, v);
    hide Put, NodeAt;
  }

  lemma ChangedBelow(m: map<string, Node>, k: string, sub: map<string, Node>, sub': map<string, Node>, parts: Path,
                     node: Node)
    requires |parts| > 1 && parts[0] == k
    requires if k in m then m[k] == Dict(sub) else sub == map[]
    requires OnlyChanged(sub, sub', parts[1..], node)
    ensures OnlyChanged(m, m[k := Dict(sub')], parts, node)
  {
    var m' := m[k := Dict(sub')];
    forall q | !(parts <= q)
      ensures LeafAt(Dict(m'), q) == LeafAt(Dict(m), q)
      ensures !(q <= parts) ==> NodeAt(Dict(m'), q) == NodeAt(Dict(m), q)
    {
      if q != [] && q[0] == k {
        assert q == [k] + q[1..] && parts == [k] + parts[1..];
        assert !(parts[1..] <= q[1..]);
        assert !(q <= parts) ==> !(q[1..] <= parts[1..]);
        assert LeafAt(Dict(sub'), q[1..]) == LeafAt(Dict(sub), q[1..]);
      }
    }
  }

  // ── Merging ──

  /** An override path of o runs through a leaf of d. */
  ghost predicate CrossesLeaf(d: map<string, Node>, o: map<string, Node>) {
    exists p, q :: LeafAt(Dict(d), p).Some? && LeafAt(Dict(o), q).Some? && p < q
  }

  // Path q is the path of an override in the list.
  ghost predicate WrittenIn(order: seq<string>, q: Path) {
    exists i :: 0 <= i < |order| && Split(order[i]) == q
  }

  ghost predicate NoneAtOrAbove(order: seq<string>, p: Path) {
    forall i :: 0 <= i < |order| ==> !(Split(order[i]) <= p)
  }

  ghost predicate Overlaid(c: Coercion, d: map<string, Node>, flat: map<string, Scalar>,
                           order: seq<string>, m: map<string, Node>)
    requires forall s :: s in order ==> s in flat
  {
    && (forall i :: 0 <= i < |order| ==>
          NodeAt(Dict(m), Split(order[i])) == Some(WrittenNode(c, NodeAt(Dict(d), Split(order[i])), flat[order[i]])))
    && (forall p :: NoneAtOrAbove(order, p) ==> LeafAt(Dict(m), p) == LeafAt(Dict(d), p))
  }

  // Override paths of which none lies at or above another.
  ghost predicate Unnested(order: seq<string>) {
    forall i, j :: 0 <= i < |order| && 0 <= j < |order| && i != j ==> !(Split(order[i]) <= Split(order[j]))
  }

  // The nodes at paths that are unrelated to the overrides so far.
  ghost predicate OthersKept(d: map<string, Node>, order: seq<string>, m: map<string, Node>) {
    forall q :: NoneAtOrAbove(order, q) && (forall i :: 0 <= i < |order| ==> !(q <= Split(order[i]))) ==>
      NodeAt(Dict(m), q) == NodeAt(Dict(d), q)
  }

  ghost predicate NoneCrosses(d: map<string, Node>, order: seq<string>) {
    forall i :: 0 <= i < |order| ==> NothingAbove(d, Split(order[i]))
  }

  lemma {:induction false} PutAllOverlays(c: Coercion, d: map<string, Node>, flat: map<string, Scalar>,
                                          order: seq<string>)
    requires Unnested(order) && forall s :: s in order ==> s in flat
    ensures PutAll(c, d, order, flat).Some? <==> NoneCrosses(d, order)
    ensures PutAll(c, d, order, flat).Some? ==>
      var m := PutAll(c, d, order, flat).value;
      Overlaid(c, d, flat, order, m) && OthersKept(d, order, m)
  {
    if order != [] {
      var n := |order| - 1;
      var before, s := order[..n], order[n];
      UnnestedFront(order);
      CrossesLast(d, order);
      hide Split, LeafAt, NodeAt, Put, WrittenNode, Unnested, Overlaid, OthersKept, NoneCrosses;
      PutAllOverlays(c, d, flat, before);
      if PutAll(c, d, before, flat).Some? {
        var m := PutAll(c, d, before, flat).value;
        PutNodes(c, m, Split(s), flat[s]);
        NothingAboveKept(d, m, before, Split(s), flat, c);
        if Put(c, m, Split(s), flat[s]).Some? {
          OverlaidMore(c, d, flat, order, m, Put(c, m, Split(s), flat[s]).value);
          OthersKeptMore(d, order, m, Put(c, m, Split(s), flat[s]).value,
            WrittenNode(c, NodeAt(Dict(m), Split(s)), flat[s]));
        }
      }
    }
  }

  lemma UnnestedFront(order: seq<string>)
    requires order != [] && Unnested(order)
    ensures var before, parts := order[..|order| - 1], Split(order[|order| - 1]);
      && Unnested(before) && NoneAtOrAbove(before, parts)
      && forall i :: 0 <= i < |before| ==> !(parts <= Split(before[i]))
  {
    hide Split;
    var n := |order| - 1;
    assert forall i :: 0 <= i < n ==> order[..n][i] == order[i];
    assert forall i :: 0 <= i < n ==> !(Split(order[i]) <= Split(order[n])) && !(Split(order[n]) <= Split(order[i]));
  }

  lemma CrossesLast(d: map<string, Node>, order: seq<string>)
    requires order != []
    ensures NoneCrosses(d, order) <==>
      NoneCrosses(d, order[..|order| - 1]) && NothingAbove(d, Split(order[|order| - 1]))
  {
    hide Split, NothingAbove;
    var n := |order| - 1;
    assert forall i :: 0 <= i < n ==> order[..n][i] == order[i];
  }

  lemma NothingAboveKept(d: map<string, Node>, m: map<string, Node>, before: seq<string>, parts: Path,
                         flat: map<string, Scalar>, c: Coercion)
    requires forall t :: t in before ==> t in flat
    requires NoneAtOrAbove(before, parts) && Overlaid(c, d, flat, before, m)
    ensures NothingAbove(m, parts) <==> NothingAbove(d, parts)
  {
    hide Split, LeafAt, NodeAt, WrittenNode;
    forall p | p < parts
      ensures LeafAt(Dict(m), p) == LeafAt(Dict(d), p)
    {
      assert NoneAtOrAbove(before, p);
    }
  }

  lemma OverlaidMore(c: Coercion, d: map<string, Node>, flat: map<string, Scalar>, order: seq<string>,
                     m: map<string, Node>, m': map<string, Node>)
    requires order != [] && Unnested(order) && forall s :: s in order ==> s in flat
    requires var before, s := order[..|order| - 1], order[|order| - 1];
      && Overlaid(c, d, flat, before, m) && OthersKept(d, before, m)
      && OnlyChanged(m, m', Split(s), WrittenNode(c, NodeAt(Dict(m), Split(s)), flat[s]))
    ensures Overlaid(c, d, flat, order, m')
  {
    UnnestedFront(order);
    hide Split, LeafAt, NodeAt, WrittenNode, Unnested;
    var n := |order| - 1;
    var before, s := order[..n], order[n];
    assert NodeAt(Dict(m), Split(s)) == NodeAt(Dict(d), Split(s));
    hide OthersKept;
    forall i | 0 <= i < |order|
      ensures NodeAt(Dict(m'), Split(order[i]))
              == Some(WrittenNode(c, NodeAt(Dict(d), Split(order[i])), flat[order[i]]))
    {
      if i < n {
        assert before[i] == order[i];
      }
    }
    forall p | NoneAtOrAbove(order, p)
      ensures LeafAt(Dict(m'), p) == LeafAt(Dict(d), p)
    {
      AboveFront(order, p);
    }
  }

  lemma AboveFront(order: seq<string>, p: Path)
    requires order != [] && NoneAtOrAbove(order, p)
    ensures NoneAtOrAbove(order[..|order| - 1], p) && !(Split(order[|order| - 1]) <= p)
  {
    var n := |order| - 1;
    assert forall i :: 0 <= i < n ==> order[..n][i] == order[i];
  }

  lemma OthersKeptMore(d: map<string, Node>, order: seq<string>, m: map<string, Node>, m': map<string, Node>,
                       node: Node)
    requires order != [] && OthersKept(d, order[..|order| - 1], m)
    requires OnlyChanged(m, m', Split(order[|order| - 1]), node)
    ensures OthersKept(d, order, m')
  {
    hide Split, LeafAt, NodeAt;
    var n := |order| - 1;
    assert forall i :: 0 <= i < n ==> order[..n][i] == order[i];
    forall q | NoneAtOrAbove(order, q) && (forall i :: 0 <= i < |order| ==> !(q <= Split(order[i])))
      ensures NodeAt(Dict(m'), q) == NodeAt(Dict(d), q)
    {
      AboveFront(order, q);
      assert !(q <= Split(order[n]));
    }
  }

  /** m has at every leaf of o that leaf's value, converted to what d had there, leaf or section, and
      away from the leaves of o the leaves of d. */
  ghost predicate Merged(c: Coercion, d: map<string, Node>, o: map<string, Node>, m: map<string, Node>) {
    && (forall q :: LeafAt(Dict(o), q).Some? ==>
          NodeAt(Dict(m), q) == Some(WrittenNode(c, NodeAt(Dict(d), q), LeafAt(Dict(o), q).value)))
    && (forall p :: AwayFrom(o, p) ==> LeafAt(Dict(m), p) == LeafAt(Dict(d), p))
  }

  /** No leaf of o lies at or above p. */
  ghost predicate AwayFrom(o: map<string, Node>, p: Path) {
    forall q :: q <= p ==> LeafAt(Dict(o), q).None?
  }

  /** The merge law. Overrides from a flattened configuration apply, in any order, exactly when
      none of them runs through a leaf; the result is the one configuration overlaid by the
      (converted) leaves of the other. */
  lemma MergeLaw(c: Coercion, d: map<string, Node>, o: map<string, Node>,
                 flat: map<string, Scalar>, order: seq<string>)
    requires Flattenable(o) && Flattens(Dict(o), "", flat) && Enumerates(order, flat.Keys)
    ensures PutAll(c, d, order, flat).Some? <==> !CrossesLeaf(d, o)
    ensures PutAll(c, d, order, flat).Some? ==> Merged(c, d, o, PutAll(c, d, order, flat).value)
  {
    LeavesAreWritten(o, flat, order);
    hide LeafAt, Split, Flattens, PutAll, Flattenable, CrossesLeaf;
    OrderIsUnnested(o, flat, order);
    PutAllOverlays(c, d, flat, order);
    CrossingLeaves(d, o, order);
    if PutAll(c, d, order, flat).Some? {
      OverlayIsMerge(c, d, o, flat, order, PutAll(c, d, order, flat).value);
    }
  }

  lemma LeavesAreWritten(o: map<string, Node>, flat: map<string, Scalar>, order: seq<string>)
    requires Flattenable(o) && Flattens(Dict(o), "", flat) && Enumerates(order, flat.Keys)
    ensures forall q :: LeafAt(Dict(o), q).Some? ==> WrittenIn(order, q)
    ensures forall i :: 0 <= i < |order| ==> LeafAt(Dict(o), Split(order[i])) == Some(flat[order[i]])
  {
    FlatForm(o, flat);
    hide LeafAt, Split, Join, Flattens, Flattenable;
    forall q | LeafAt(Dict(o), q).Some?
      ensures WrittenIn(order, q)
    {
      var i :| 0 <= i < |order| && order[i] == Join(q);
    }
    forall i | 0 <= i < |order|
      ensures LeafAt(Dict(o), Split(order[i])) == Some(flat[order[i]])
    {
      assert order[i] in flat;
    }
  }

  lemma OverlayIsMerge(c: Coercion, d: map<string, Node>, o: map<string, Node>,
                       flat: map<string, Scalar>, order: seq<string>, m: map<string, Node>)
    requires forall s :: s in order ==> s in flat
    requires forall q :: LeafAt(Dict(o), q).Some? ==> WrittenIn(order, q)
    requires forall i :: 0 <= i < |order| ==> LeafAt(Dict(o), Split(order[i])) == Some(flat[order[i]])
    requires Overlaid(c, d, flat, order, m)
    ensures Merged(c, d, o, m)
  {
    hide LeafAt, NodeAt, Split, WrittenNode;
    forall p | AwayFrom(o, p)
      ensures LeafAt(Dict(m), p) == LeafAt(Dict(d), p)
    {
      assert NoneAtOrAbove(order, p);
    }
  }

  lemma OrderIsUnnested(o: map<string, Node>, flat: map<string, Scalar>, order: seq<string>)
    requires Enumerates(order, flat.Keys)
    requires forall i :: 0 <= i < |order| ==> LeafAt(Dict(o), Split(order[i])).Some?
    ensures Unnested(order)
  {
    hide Split, LeafAt;
    forall i, j | 0 <= i < |order| && 0 <= j < |order| && i != j
      ensures !(Split(order[i]) <= Split(order[j]))
    {
      if Split(order[i]) == Split(order[j]) {
        JoinSplit(order[i]);
        JoinSplit(order[j]);
      } else if Split(order[i]) < Split(order[j]) {
        LeavesAreNotNested(Dict(o), Split(order[i]), Split(order[j]));
      }
    }
  }

  lemma CrossingLeaves(d: map<string, Node>, o: map<string, Node>, order: seq<string>)
    requires forall q :: LeafAt(Dict(o), q).Some? ==> WrittenIn(order, q)
    requires forall i :: 0 <= i < |order| ==> LeafAt(Dict(o), Split(order[i])).Some?
    ensures NoneCrosses(d, order) <==> !CrossesLeaf(d, o)
  {
    hide Split, LeafAt;
    if CrossesLeaf(d, o) {
      var p, q :| LeafAt(Dict(d), p).Some? && LeafAt(Dict(o), q).Some? && p < q;
      assert WrittenIn(order, q);
      assert !NothingAbove(d, q);
    }
  }

  /** Loading a local file over a base configuration: flatten the one, override the other. */
  method MergeLocal(c: Coercion, base: map<string, Node>, local: map<string, Node>)
    returns (result: Option<map<string, Node>>, ghost flat: map<string, Scalar>, ghost order: seq<string>)
    ensures Flattens(Dict(local), "", flat) && Enumerates(order, flat.Keys)
    ensures result == PutAll(c, base, order, flat)
    ensures Flattenable(local) ==>
      && (result.Some? <==> !CrossesLeaf(base, local))
      && (result.Some? ==> Merged(c, base, local, result.value))
  {
    hide *;
    var overrides := Flatten(Dict(local), "");
    flat := overrides;
    result, order := ApplyOverrides(c, base, overrides);
    if Flattenable(local) {
      MergeLaw(c, base, local, flat, order);
    }
  }

  /** An override through a leaf raises. */
  lemma OverrideThroughLeaf(c: Coercion)
    ensures PutAll(c, map["a" := Leaf(Int(1))], ["a.b"], map["a.b" := Int(2)]) == None
  {
    var m := map["a" := Leaf(Int(1))];
    SplitFirst("a", "b");
    SplitOfDotFree("b");
    assert "a" + "." + "b" == "a.b" && ["a.b"][..0] == [];
    assert Put(c, m, ["a"] + ["b"], Int(2)) == None;
  }

  // ── The flat form of a merge ──

  /** A value, or a section that has a flat form under a name. */
  ghost predicate Solid(n: Node) {
    n.Dict? ==> n.entries != map[] && NoEmptySections(n.entries) && DotFreeKeys(n.entries)
  }

  /** What the overrides leave at their paths, sections made by a conversion included, has a flat form. */
  ghost predicate SolidReplacing(c: Coercion, d: map<string, Node>, o: map<string, Node>) {
    forall q :: LeafAt(Dict(o), q).Some? ==> Solid(WrittenNode(c, NodeAt(Dict(d), q), LeafAt(Dict(o), q).value))
  }

  /** A value that replaces a section stays the value that it is. */
  ghost predicate KeepsReplacing(c: Coercion, d: map<string, Node>, o: map<string, Node>) {
    forall q :: LeafAt(Dict(o), q).Some? && NodeAt(Dict(d), q).Some? && NodeAt(Dict(d), q).value.Dict? ==>
      c.section(NodeAt(Dict(d), q).value.entries, LeafAt(Dict(o), q).value) == Leaf(LeafAt(Dict(o), q).value)
  }

  lemma KeptIsSolid(c: Coercion, d: map<string, Node>, o: map<string, Node>)
    requires KeepsReplacing(c, d, o)
    ensures SolidReplacing(c, d, o)
  {
    hide LeafAt, NodeAt;
  }

  // The value that an override leaves at a path that is not a section.
  ghost function Written(c: Coercion, was: Option<Scalar>, v: Scalar): Scalar {
    if was.Some? && v != Null then c.leaf(was.value, v) else v
  }

  // The leaves of a merge, at and below a written path, and away from all of them.
  lemma MergedAt(c: Coercion, d: map<string, Node>, o: map<string, Node>, m: map<string, Node>, p: Path)
    requires Merged(c, d, o, m)
    ensures forall q :: q <= p && LeafAt(Dict(o), q).Some? ==>
      LeafAt(Dict(m), p) == LeafAt(WrittenNode(c, NodeAt(Dict(d), q), LeafAt(Dict(o), q).value), p[|q|..])
    ensures AwayFrom(o, p) ==> LeafAt(Dict(m), p) == LeafAt(Dict(d), p)
  {
    hide LeafAt, NodeAt, WrittenNode;
    forall q | q <= p && LeafAt(Dict(o), q).Some?
      ensures LeafAt(Dict(m), p) == LeafAt(WrittenNode(c, NodeAt(Dict(d), q), LeafAt(Dict(o), q).value), p[|q|..])
    {
      LeavesBelow(Dict(m), q, p);
    }
  }

  // Where values replace sections as they are, nothing lies below a written path.
  lemma MergedValues(c: Coercion, d: map<string, Node>, o: map<string, Node>, m: map<string, Node>, p: Path)
    requires Merged(c, d, o, m) && KeepsReplacing(c, d, o)
    ensures LeafAt(Dict(o), p).Some? ==>
      LeafAt(Dict(m), p) == Some(Written(c, LeafAt(Dict(d), p), LeafAt(Dict(o), p).value))
    ensures LeafAt(Dict(o), p).None? && !AwayFrom(o, p) ==> LeafAt(Dict(m), p).None?
  {
    LeafIsNode(Dict(m), p);
    LeafIsNode(Dict(d), p);
    if LeafAt(Dict(o), p).None? && !AwayFrom(o, p) {
      var q :| q <= p && LeafAt(Dict(o), q).Some?;
      assert q != p;
      LeafIsNode(Dict(m), q);
      LeafIsNode(Dict(d), q);
      hide LeafAt, NodeAt;
      assert LeafAt(Dict(m), q).Some?;
      LeavesAreNotNested(Dict(m), q, p);
    }
  }

  /** A written path lies above the path of s. */
  ghost predicate Shadowed(fo: map<string, Scalar>, s: string) {
    exists t :: t in fo && Split(t) < Split(s)
  }

  /** The keys are those of fo, and those of fd that no key of fo shadows; values of fo win, converted. */
  ghost predicate OverlaidFlat(c: Coercion, fd: map<string, Scalar>, fo: map<string, Scalar>, fm: map<string, Scalar>) {
    && (forall s :: s in fm <==> s in fo || (s in fd && !Shadowed(fo, s)))
    && (forall s :: s in fo ==> s in fm && fm[s] == Written(c, if s in fd then Some(fd[s]) else None, fo[s]))
    && (forall s :: s in fd && s !in fo && !Shadowed(fo, s) ==> s in fm && fm[s] == fd[s])
  }

  /** At and below a key of fo the flat form is that of what the override leaves there; elsewhere it is fd. */
  ghost predicate OverlaidBelow(c: Coercion, d: map<string, Node>, fd: map<string, Scalar>, fo: map<string, Scalar>,
                                fm: map<string, Scalar>) {
    && (forall s, t :: t in fo && Split(t) <= Split(s) ==>
          Entry(fm, s) == LeafAt(WrittenNode(c, NodeAt(Dict(d), Split(t)), fo[t]), Split(s)[|Split(t)|..]))
    && (forall s :: s !in fo && !Shadowed(fo, s) ==> Entry(fm, s) == Entry(fd, s))
  }

  function Entry(flat: map<string, Scalar>, s: string): Option<Scalar> {
    if s in flat then Some(flat[s]) else None
  }

  /** A merge has a faithful flat form exactly when no override leaves an empty section or a dotted key; the
      flat form is then that of the one configuration, overlaid at the keys of the other by what is left
      there. */
  lemma MergeFlattens(c: Coercion, d: map<string, Node>, o: map<string, Node>, fd: map<string, Scalar>,
                      fo: map<string, Scalar>, order: seq<string>, m: map<string, Node>, fm: map<string, Scalar>)
    requires Flattenable(d) && Flattens(Dict(d), "", fd)
    requires Flattenable(o) && Flattens(Dict(o), "", fo) && Enumerates(order, fo.Keys)
    requires PutAll(c, d, order, fo) == Some(m) && Flattens(Dict(m), "", fm)
    ensures Flattenable(m) <==> SolidReplacing(c, d, o)
    ensures Flattenable(m) ==> OverlaidBelow(c, d, fd, fo, fm)
  {
    hide *;
    MergeLaw(c, d, o, fo, order);
    if SolidReplacing(c, d, o) {
      MergedSections(c, d, o, fo, order);
      MergedFlattenable(c, d, o, m);
    }
    if Flattenable(m) {
      SolidBelow(c, d, o, m);
      forall s
        ensures forall t :: t in fo && Split(t) <= Split(s) ==>
          Entry(fm, s) == LeafAt(WrittenNode(c, NodeAt(Dict(d), Split(t)), fo[t]), Split(s)[|Split(t)|..])
        ensures s !in fo && !Shadowed(fo, s) ==> Entry(fm, s) == Entry(fd, s)
      {
        MergedEntry(c, d, o, fd, fo, m, fm, s);
      }
      OverlayBuilt(c, d, fd, fo, fm);
    }
  }

  lemma MergedEntry(c: Coercion, d: map<string, Node>, o: map<string, Node>, fd: map<string, Scalar>,
                    fo: map<string, Scalar>, m: map<string, Node>, fm: map<string, Scalar>, s: string)
    requires Flattenable(d) && Flattens(Dict(d), "", fd) && Flattenable(o) && Flattens(Dict(o), "", fo)
    requires Flattenable(m) && Flattens(Dict(m), "", fm) && Merged(c, d, o, m)
    ensures forall t :: t in fo && Split(t) <= Split(s) ==>
      Entry(fm, s) == LeafAt(WrittenNode(c, NodeAt(Dict(d), Split(t)), fo[t]), Split(s)[|Split(t)|..])
    ensures s !in fo && !Shadowed(fo, s) ==> Entry(fm, s) == Entry(fd, s)
  {
    FlatEntry(d, fd, s);
    FlatEntry(m, fm, s);
    MergedAt(c, d, o, m, Split(s));
    AwayIsUnshadowed(o, fo, s);
    hide Flattenable, Flattens, LeafAt, NodeAt, WrittenNode, Split, AwayFrom, Shadowed, Merged;
    forall t | t in fo && Split(t) <= Split(s)
      ensures LeafAt(Dict(o), Split(t)) == Some(fo[t])
    {
      FlatEntry(o, fo, t);
    }
  }

  lemma OverlayBuilt(c: Coercion, d: map<string, Node>, fd: map<string, Scalar>, fo: map<string, Scalar>,
                     fm: map<string, Scalar>)
    requires forall s, t :: t in fo && Split(t) <= Split(s) ==>
      Entry(fm, s) == LeafAt(WrittenNode(c, NodeAt(Dict(d), Split(t)), fo[t]), Split(s)[|Split(t)|..])
    requires forall s :: s !in fo && !Shadowed(fo, s) ==> Entry(fm, s) == Entry(fd, s)
    ensures OverlaidBelow(c, d, fd, fo, fm)
  {
    hide Split, Entry, Shadowed, LeafAt, NodeAt, WrittenNode;
  }

  // Sections of a flattenable configuration are solid.
  lemma {:induction false} SolidAt(n: Node, q: Path)
    requires Solid(n) && NodeAt(n, q).Some?
    ensures Solid(NodeAt(n, q).value)
    decreases |q|
  {
    if q != [] {
      SolidAt(n.entries[q[0]], q[1..]);
    }
  }

  lemma SolidBelow(c: Coercion, d: map<string, Node>, o: map<string, Node>, m: map<string, Node>)
    requires Flattenable(m) && Merged(c, d, o, m)
    ensures SolidReplacing(c, d, o)
  {
    hide LeafAt, NodeAt, WrittenNode;
    forall q | LeafAt(Dict(o), q).Some?
      ensures Solid(WrittenNode(c, NodeAt(Dict(d), q), LeafAt(Dict(o), q).value))
    {
      NotEmptyByLeaf(m, o, q);
      SolidAt(Dict(m), q);
    }
  }

  lemma NotEmptyByLeaf(m: map<string, Node>, o: map<string, Node>, q: Path)
    requires LeafAt(Dict(o), q).Some? && NodeAt(Dict(m), q).Some?
    ensures m != map[]
  {
  }

  /** When values that replace sections stay as they are, the keys of a merge are those of the overrides, and
      of the base those that none of them shadows. */
  lemma MergeOfValues(c: Coercion, d: map<string, Node>, o: map<string, Node>, fd: map<string, Scalar>,
                      fo: map<string, Scalar>, order: seq<string>, m: map<string, Node>, fm: map<string, Scalar>)
    requires Flattenable(d) && Flattens(Dict(d), "", fd)
    requires Flattenable(o) && Flattens(Dict(o), "", fo) && Enumerates(order, fo.Keys)
    requires KeepsReplacing(c, d, o) && PutAll(c, d, order, fo) == Some(m)
    requires Flattens(Dict(m), "", fm)
    ensures Flattenable(m) && OverlaidFlat(c, fd, fo, fm)
  {
    hide *;
    MergeLaw(c, d, o, fo, order);
    KeptIsSolid(c, d, o);
    MergedSections(c, d, o, fo, order);
    MergedFlattenable(c, d, o, m);
    forall s
      ensures s in fm <==> s in fo || (s in fd && !Shadowed(fo, s))
      ensures s in fo ==> s in fm && fm[s] == Written(c, if s in fd then Some(fd[s]) else None, fo[s])
      ensures s in fd && s !in fo && !Shadowed(fo, s) ==> s in fm && fm[s] == fd[s]
    {
      FlatEntry(d, fd, s);
      FlatEntry(o, fo, s);
      FlatEntry(m, fm, s);
      MergedAt(c, d, o, m, Split(s));
      MergedValues(c, d, o, m, Split(s));
      AwayIsUnshadowed(o, fo, s);
    }
    FlatBuilt(c, fd, fo, fm);
  }

  lemma AwayIsUnshadowed(o: map<string, Node>, fo: map<string, Scalar>, s: string)
    requires Flattenable(o) && Flattens(Dict(o), "", fo)
    ensures AwayFrom(o, Split(s)) <==> s !in fo && !Shadowed(fo, s)
  {
    hide LeafAt, Split, Join, Flattens, Flattenable;
    var p := Split(s);
    FlatEntry(o, fo, s);
    if q :| q <= p && LeafAt(Dict(o), q).Some? {
      if q != p {
        LeafHasKey(o, fo, q);
        assert Shadowed(fo, s);
      }
    }
    if t :| t in fo && Split(t) < p {
      FlatEntry(o, fo, t);
      assert Split(t) <= p;
    }
  }

  lemma LeafHasKey(o: map<string, Node>, fo: map<string, Scalar>, q: Path)
    requires Flattenable(o) && Flattens(Dict(o), "", fo) && LeafAt(Dict(o), q).Some?
    ensures q != [] && Join(q) in fo && Split(Join(q)) == q
  {
    LeafKey(o, q);
    hide Split, Join, LeafAt, Flattenable;
    assert KeyOf("", q) in fo;
  }

  lemma FlatBuilt(c: Coercion, fd: map<string, Scalar>, fo: map<string, Scalar>, fm: map<string, Scalar>)
    requires forall s :: s in fm <==> s in fo || (s in fd && !Shadowed(fo, s))
    requires forall s :: s in fo ==> s in fm && fm[s] == Written(c, if s in fd then Some(fd[s]) else None, fo[s])
    requires forall s :: s in fd && s !in fo && !Shadowed(fo, s) ==> s in fm && fm[s] == fd[s]
    ensures OverlaidFlat(c, fd, fo, fm)
  {
  }

  /** The override turns a section into another one. */
  ghost predicate Converts(c: Coercion, m: map<string, Node>, parts: Path, v: Scalar) {
    && NodeAt(Dict(m), parts).Some? && NodeAt(Dict(m), parts).value.Dict?
    && WrittenNode(c, NodeAt(Dict(m), parts), v).Dict?
  }

  lemma UnconvertedIsSolid(c: Coercion, m: map<string, Node>, parts: Path, v: Scalar)
    requires !Converts(c, m, parts, v)
    ensures Solid(WrittenNode(c, NodeAt(Dict(m), parts), v))
  {
    hide NodeAt;
  }

  // An override that leaves something solid brings in no empty section, and no dotted key.
  lemma {:induction false} PutShape(c: Coercion, m: map<string, Node>, parts: Path, v: Scalar)
    requires parts != [] && NoEmptySections(m) && Solid(WrittenNode(c, NodeAt(Dict(m), parts), v))
    ensures Put(c, m, parts, v).Some? ==> Shaped(m, Put(c, m, parts, v).value, parts)
    decreases |parts|
  {
    var k := parts[0];
    if Put(c, m, parts, v).Some? {
      if |parts| == 1 {
        assert parts == [k];
        assert NodeAt(Dict(m), parts) == if k in m then Some(m[k]) else None;
        ShapedAt(m, k, Put(c, m, parts, v).value[k], parts);
      } else {
        var sub := if k in m then m[k].entries else map[];
        assert NodeAt(Dict(m), parts) == NodeAt(Dict(sub), parts[1..]);
        PutShape(c, sub, parts[1..], v);
        ShapedBelow(m, k, sub, Put(c, sub, parts[1..], v).value, parts);
      }
    }
  }

  ghost predicate Shaped(m: map<string, Node>, m': map<string, Node>, parts: Path) {
    m' != map[] && NoEmptySections(m') && (DotFreePath(parts) && DotFreeKeys(m) ==> DotFreeKeys(m'))
  }

  lemma ShapedAt(m: map<string, Node>, k: string, node: Node, parts: Path)
    requires NoEmptySections(m) && Solid(node) && parts == [k]
    ensures Shaped(m, m[k := node], parts)
  {
    assert k in m[k := node];
    assert k in parts;
  }

  lemma ShapedBelow(m: map<string, Node>, k: string, sub: map<string, Node>, sub': map<string, Node>, parts: Path)
    requires NoEmptySections(m) && |parts| > 1 && parts[0] == k
    requires if k in m then m[k] == Dict(sub) else sub == map[]
    requires Shaped(sub, sub', parts[1..])
    ensures Shaped(m, m[k := Dict(sub')], parts)
  {
    assert k in m[k := Dict(sub')];
    assert k in parts && forall s :: s in parts[1..] ==> s in parts;
  }

  lemma {:induction false} MergedSections(c: Coercion, d: map<string, Node>, o: map<string, Node>,
                                          flat: map<string, Scalar>, order: seq<string>)
    requires Flattenable(d) && Flattenable(o) && Flattens(Dict(o), "", flat) && Enumerates(order, flat.Keys)
    requires SolidReplacing(c, d, o)
    ensures PutAll(c, d, order, flat).Some? ==> NoEmptySections(PutAll(c, d, order, flat).value)
  {
    LeavesAreWritten(o, flat, order);
    FlattenableHasNoEmptySections(d);
    hide Flattens, Flattenable, LeafAt, NodeAt, PutAll, NoEmptySections, SolidReplacing, Split;
    OrderIsUnnested(o, flat, order);
    SectionsStay(c, d, o, flat, order);
  }

  lemma {:induction false} SectionsStay(c: Coercion, d: map<string, Node>, o: map<string, Node>,
                                        flat: map<string, Scalar>, order: seq<string>)
    requires NoEmptySections(d) && SolidReplacing(c, d, o) && Unnested(order) && forall s :: s in order ==> s in flat
    requires forall i :: 0 <= i < |order| ==> LeafAt(Dict(o), Split(order[i])) == Some(flat[order[i]])
    ensures PutAll(c, d, order, flat).Some? ==> NoEmptySections(PutAll(c, d, order, flat).value)
  {
    if order != [] {
      var n := |order| - 1;
      var before, s := order[..n], order[n];
      assert forall i :: 0 <= i < n ==> before[i] == order[i];
      hide Split, LeafAt, NodeAt, Put, NoEmptySections, SolidReplacing, Solid, WrittenNode;
      SectionsStay(c, d, o, flat, before);
      if PutAll(c, d, before, flat).Some? {
        var m := PutAll(c, d, before, flat).value;
        PutAllOverlays(c, d, flat, before);
        LastIsSolid(c, d, o, flat, order, m);
        PutShape(c, m, Split(s), flat[s]);
      }
    }
  }

  // The node at the path of the last override is still that of d.
  lemma LastIsSolid(c: Coercion, d: map<string, Node>, o: map<string, Node>,
                    flat: map<string, Scalar>, order: seq<string>, m: map<string, Node>)
    requires order != [] && SolidReplacing(c, d, o) && Unnested(order) && OthersKept(d, order[..|order| - 1], m)
    requires var s := order[|order| - 1]; s in flat && LeafAt(Dict(o), Split(s)) == Some(flat[s])
    ensures var s := order[|order| - 1]; Solid(WrittenNode(c, NodeAt(Dict(m), Split(s)), flat[s]))
  {
    hide Split, LeafAt, NodeAt, Solid, WrittenNode;
    var n := |order| - 1;
    assert forall i :: 0 <= i < n ==> order[..n][i] == order[i];
    assert NoneAtOrAbove(order[..n], Split(order[n]));
    assert NodeAt(Dict(m), Split(order[n])) == NodeAt(Dict(d), Split(order[n]));
  }

  // A configuration without empty sections is flattenable when the paths of its leaves are.
  lemma FlattenableByLeaves(m: map<string, Node>)
    requires NoEmptySections(m)
    requires forall p :: LeafAt(Dict(m), p).Some? ==> DotFreePath(p) && (|p| > 1 ==> p[0] != "")
    ensures Flattenable(m)
  {
    DotFreeByLeaves(m);
    if "" in m && m[""].Dict? {
      var q := SomeLeaf(m[""].entries);
      LeafAtChild(m, "", q);
      assert false;
    }
  }

  lemma {:induction false} DotFreeByLeaves(m: map<string, Node>)
    requires NoEmptySections(m)
    requires forall p :: LeafAt(Dict(m), p).Some? ==> DotFreePath(p)
    ensures DotFreeKeys(m)
    decreases Dict(m)
  {
    forall k | k in m
      ensures DotFree(k) && (m[k].Dict? ==> DotFreeKeys(m[k].entries))
    {
      if m[k].Dict? {
        forall q | LeafAt(m[k], q).Some?
          ensures DotFreePath(q)
        {
          LeafAtChild(m, k, q);
          forall s | s in q
            ensures DotFree(s)
          {
            assert s in [k] + q;
          }
        }
        DotFreeByLeaves(m[k].entries);
        var q := SomeLeaf(m[k].entries);
        LeafAtChild(m, k, q);
        assert k in [k] + q;
      } else {
        LeafAtChild(m, k, []);
        assert k in [k] + [];
      }
    }
  }

  lemma MergedFlattenable(c: Coercion, d: map<string, Node>, o: map<string, Node>, m: map<string, Node>)
    requires Flattenable(d) && Flattenable(o) && NoEmptySections(m) && Merged(c, d, o, m) && SolidReplacing(c, d, o)
    ensures Flattenable(m)
  {
    hide *;
    forall p | LeafAt(Dict(m), p).Some?
      ensures DotFreePath(p) && (|p| > 1 ==> p[0] != "")
    {
      MergedPath(c, d, o, m, p);
    }
    FlattenableByLeaves(m);
  }

  lemma MergedPath(c: Coercion, d: map<string, Node>, o: map<string, Node>, m: map<string, Node>, p: Path)
    requires Flattenable(d) && Flattenable(o) && Merged(c, d, o, m) && SolidReplacing(c, d, o)
             && LeafAt(Dict(m), p).Some?
    ensures DotFreePath(p) && (|p| > 1 ==> p[0] != "")
  {
    MergedAt(c, d, o, m, p);
    hide LeafAt, NodeAt, DotFreePath, Flattenable, Merged, WrittenNode;
    if q :| q <= p && LeafAt(Dict(o), q).Some? {
      PathBelow(c, d, o, p, q);
    } else {
      LeafPathHead(d, p);
    }
  }

  lemma UnnamedIsLeaf(d: map<string, Node>, q: Path)
    requires Flattenable(d) && |q| == 1 && q[0] == ""
    ensures NodeAt(Dict(d), q).Some? ==> NodeAt(Dict(d), q).value.Leaf?
  {
    assert NodeAt(Dict(d), q) == if "" in d then Some(d[""]) else None;
  }

  lemma PathBelow(c: Coercion, d: map<string, Node>, o: map<string, Node>, p: Path, q: Path)
    requires Flattenable(d) && Flattenable(o) && SolidReplacing(c, d, o) && q <= p && LeafAt(Dict(o), q).Some?
    requires LeafAt(WrittenNode(c, NodeAt(Dict(d), q), LeafAt(Dict(o), q).value), p[|q|..]).Some?
    ensures DotFreePath(p) && (|p| > 1 ==> p[0] != "")
  {
    var node, below := WrittenNode(c, NodeAt(Dict(d), q), LeafAt(Dict(o), q).value), p[|q|..];
    LeafPathHead(o, q);
    LeafPathShape(o, q);
    assert p == q + below;
    if below != [] {
      assert Solid(node) && node.Dict?;
      LeafPathShape(node.entries, below);
      if |q| == 1 && q[0] == "" {
        UnnamedIsLeaf(d, q);
        assert false;
      }
    }
    hide LeafAt, NodeAt, Flattenable, WrittenNode, Solid, SolidReplacing, DotFree;
    forall s | s in p
      ensures DotFree(s)
    {
      assert s in q || s in below;
    }
  }

  /** A flat form has the key s exactly when there is a leaf at the split path. */
  lemma FlatEntry(o: map<string, Node>, flat: map<string, Scalar>, s: string)
    requires Flattenable(o) && Flattens(Dict(o), "", flat)
    ensures LeafAt(Dict(o), Split(s)) == if s in flat then Some(flat[s]) else None
  {
    FlatForm(o, flat);
    JoinSplit(s);
  }

  lemma LeafPathHead(m: map<string, Node>, p: Path)
    requires Flattenable(m) && LeafAt(Dict(m), p).Some?
    ensures DotFreePath(p) && (|p| > 1 ==> p[0] != "")
  {
    LeafPathShape(m, p);
  }

  // ── The round trip ──

  /** Writing a flattened configuration into an empty one gives it back, in any order. */
  lemma RoundTrip(c: Coercion, o: map<string, Node>, flat: map<string, Scalar>, order: seq<string>)
    requires Flattenable(o) && Flattens(Dict(o), "", flat) && Enumerates(order, flat.Keys)
    ensures PutAll(c, map[], order, flat) == Some(o)
  {
    MergeLaw(c, map[], o, flat, order);
    NothingToReplace(c, o);
    KeptIsSolid(c, map[], o);
    MergedSections(c, map[], o, flat, order);
    var m := PutAll(c, map[], order, flat).value;
    hide PutAll, Flattens, NoEmptySections, Flattenable, Merged, KeepsReplacing, SolidReplacing, LeafAt;
    forall p
      ensures LeafAt(Dict(m), p) == LeafAt(Dict(o), p)
    {
      MergedAt(c, map[], o, m, p);
      MergedValues(c, map[], o, m, p);
      NoLeaves(p);
    }
    FlattenableHasNoEmptySections(o);
    SameLeavesSameConfig(m, o);
  }

  lemma NoLeaves(p: Path)
    ensures LeafAt(Dict(map[]), p) == None
  {
  }

  lemma NothingToReplace(c: Coercion, o: map<string, Node>)
    requires Flattenable(o)
    ensures KeepsReplacing(c, map[], o) && Flattenable(map[]) && !CrossesLeaf(map[], o)
  {
    forall q | LeafAt(Dict(o), q).Some?
      ensures q != []
    {
    }
  }

  lemma FlattenableHasNoEmptySections(m: map<string, Node>)
    requires Flattenable(m)
    ensures NoEmptySections(m)
  {
  }

  // How many lists a value is made of.
  function Size(v: Scalar): nat
    decreases v
  {
    match v
    case List(items) => 1 + Sizes(items)
    case _ => 0
  }

  function Sizes(items: seq<Scalar>): nat
    decreases items
  {
    if items == [] then 0 else Size(items[0]) + Sizes(items[1..])
  }

  /** A section has only values smaller than v. */
  ghost predicate PartsOf(n: Node, v: Scalar) {
    n.Dict? ==> forall q :: LeafAt(n, q).Some? ==> Size(LeafAt(n, q).value) < Size(v)
  }

  /** `dict(value)` raises, and the value stays, or it makes a section of parts of the value: nothing of
      an empty value, the pairs of a list of pairs. Nor does a value that was first converted to
      the type of a leaf have larger parts. */
  ghost predicate MadeOfParts(c: Coercion) {
    && (forall sub, v :: PartsOf(c.section(sub, v), v))
    && (forall sub, v :: c.section(sub, v).Leaf? ==> c.section(sub, v) == Leaf(v))
    && (forall sub, w, v :: PartsOf(c.section(sub, c.leaf(w, v)), v))
  }

  /** Override number i turns a section into another one. */
  ghost predicate ConvertsAt(c: Coercion, flat: map<string, Scalar>, order: seq<string>, i: nat)
    requires forall s :: s in order ==> s in flat
  {
    && i < |order| && PutAll(c, map[], order[..i], flat).Some?
    && Converts(c, PutAll(c, map[], order[..i], flat).value, Split(order[i]), flat[order[i]])
  }

  // The section that override number i makes has the value w.
  ghost predicate PartAt(c: Coercion, flat: map<string, Scalar>, order: seq<string>, i: nat, w: Scalar)
    requires forall s :: s in order ==> s in flat
  {
    && ConvertsAt(c, flat, order, i)
    && var m := PutAll(c, map[], order[..i], flat).value;
    exists q :: LeafAt(WrittenNode(c, NodeAt(Dict(m), Split(order[i])), flat[order[i]]), q) == Some(w)
  }

  // Override number i puts the value w at path q itself.
  ghost predicate DirectAt(c: Coercion, flat: map<string, Scalar>, order: seq<string>, i: nat, q: Path, w: Scalar)
    requires forall s :: s in order ==> s in flat
  {
    && i < |order| && !ConvertsAt(c, flat, order, i) && Split(order[i]) == q
    && (w == flat[order[i]] || exists u :: w == c.leaf(u, flat[order[i]]))
  }

  ghost predicate Originates(c: Coercion, flat: map<string, Scalar>, order: seq<string>, q: Path, w: Scalar)
    requires forall s :: s in order ==> s in flat
  {
    || (exists i: nat :: DirectAt(c, flat, order, i, q, w))
    || (exists i: nat :: PartAt(c, flat, order, i, w))
  }

  lemma OriginatesMore(c: Coercion, flat: map<string, Scalar>, order: seq<string>, q: Path, w: Scalar)
    requires order != [] && forall s :: s in order ==> s in flat
    requires Originates(c, flat, order[..|order| - 1], q, w)
    ensures Originates(c, flat, order, q, w)
  {
    var n := |order| - 1;
    hide Split, LeafAt, NodeAt, PutAll, Converts, WrittenNode;
    assert forall i :: 0 <= i < n ==> order[..n][..i] == order[..i] && order[..n][i] == order[i];
    if i: nat :| DirectAt(c, flat, order[..n], i, q, w) {
      assert DirectAt(c, flat, order, i, q, w);
    } else {
      var i: nat :| PartAt(c, flat, order[..n], i, w);
      assert PartAt(c, flat, order, i, w);
    }
  }

  /** Every leaf was put there by the override for its path, or is part of a section that an override was
      turned into. */
  lemma {:induction false} LeafOriginates(c: Coercion, flat: map<string, Scalar>, order: seq<string>, q: Path)
    requires MadeOfParts(c) && forall s :: s in order ==> s in flat
    requires PutAll(c, map[], order, flat).Some? && LeafAt(Dict(PutAll(c, map[], order, flat).value), q).Some?
    ensures Originates(c, flat, order, q, LeafAt(Dict(PutAll(c, map[], order, flat).value), q).value)
  {
    if order == [] {
      NoLeaves(q);
    } else {
      var n := |order| - 1;
      var before, s := order[..n], order[n];
      var m := PutAll(c, map[], before, flat).value;
      var m' := Put(c, m, Split(s), flat[s]).value;
      PutNodes(c, m, Split(s), flat[s]);
      if Split(s) <= q {
        LeavesBelow(Dict(m'), Split(s), q);
        WrittenOriginates(c, flat, order, m, q);
      } else {
        hide Originates, LeafAt, Split, Put;
        LeafOriginates(c, flat, before, q);
        OriginatesMore(c, flat, order, q, LeafAt(Dict(m'), q).value);
      }
    }
  }

  lemma WrittenOriginates(c: Coercion, flat: map<string, Scalar>, order: seq<string>, m: map<string, Node>, q: Path)
    requires MadeOfParts(c) && order != [] && forall s :: s in order ==> s in flat
    requires PutAll(c, map[], order[..|order| - 1], flat) == Some(m)
    requires var s := order[|order| - 1];
      Split(s) <= q && LeafAt(WrittenNode(c, NodeAt(Dict(m), Split(s)), flat[s]), q[|Split(s)|..]).Some?
    ensures var s := order[|order| - 1];
      Originates(c, flat, order, q, LeafAt(WrittenNode(c, NodeAt(Dict(m), Split(s)), flat[s]), q[|Split(s)|..]).value)
  {
    var n := |order| - 1;
    var s := order[n];
    var was := NodeAt(Dict(m), Split(s));
    var node := WrittenNode(c, was, flat[s]);
    var below := q[|Split(s)|..];
    var w := LeafAt(node, below).value;
    hide Split, NodeAt, PutAll;
    if ConvertsAt(c, flat, order, n) {
      assert LeafAt(node, below) == Some(w);
      assert PartAt(c, flat, order, n, w);
    } else {
      assert node.Leaf?;
      assert below == [] && q == Split(s);
      assert DirectAt(c, flat, order, n, q, w);
    }
  }

  lemma PartsAreSmaller(c: Coercion, flat: map<string, Scalar>, order: seq<string>, i: nat, v: Scalar)
    requires MadeOfParts(c) && forall s :: s in order ==> s in flat
    requires ConvertsAt(c, flat, order, i)
    requires v == flat[order[i]] || exists u :: flat[order[i]] == c.leaf(u, v)
    ensures forall y :: PartAt(c, flat, order, i, y) ==> Size(y) < Size(v)
  {
    var m := PutAll(c, map[], order[..i], flat).value;
    var was := NodeAt(Dict(m), Split(order[i]));
    var node := WrittenNode(c, was, flat[order[i]]);
    hide Split, NodeAt, PutAll, Size;
    assert node == c.section(was.value.entries, flat[order[i]]);
    assert PartsOf(node, v);
  }

  // In a round trip, a section made by an override has a smaller value than one made by another.
  lemma LargerPart(c: Coercion, o: map<string, Node>, flat: map<string, Scalar>, order: seq<string>, i: nat)
    returns (j: nat, x: Scalar)
    requires MadeOfParts(c) && Flattens(Dict(o), "", flat) && Enumerates(order, flat.Keys)
    requires PutAll(c, map[], order, flat) == Some(o) && ConvertsAt(c, flat, order, i)
    ensures PartAt(c, flat, order, j, x) && forall y :: PartAt(c, flat, order, i, y) ==> Size(y) < Size(x)
  {
    var s := order[i];
    var q :| KeyOf("", q) == s && LeafAt(Dict(o), q) == Some(flat[s]);
    hide LeafAt, NodeAt, PutAll, Split, Join, KeyOf, ConvertsAt, PartAt;
    LeafOriginates(c, flat, order, q);
    if k: nat :| PartAt(c, flat, order, k, flat[s]) {
      PartsAreSmaller(c, flat, order, i, flat[s]);
      return k, flat[s];
    }
    var k: nat :| DirectAt(c, flat, order, k, q, flat[s]);
    var t := order[k];
    JoinSplit(t);
    if |q| == 1 || q[0] != "" {
      KeyIsJoin(q);
      assert false;
    } else {
      UnnamedKey(q);
      var r :| KeyOf("", r) == t && LeafAt(Dict(o), r) == Some(flat[t]);
      if DotFreePath(r) {
        KeyHasNoLeadingDot(r);
        assert false;
      }
      LeafOriginates(c, flat, order, r);
      assert forall l: nat :: !DirectAt(c, flat, order, l, r, flat[t]);
      j :| PartAt(c, flat, order, j, flat[t]);
      x := flat[t];
      PartsAreSmaller(c, flat, order, i, flat[t]);
    }
  }

  lemma UnnamedKey(q: Path)
    requires |q| > 1 && q[0] == ""
    ensures Join(q) != "" && Join(q)[0] == '.'
  {
  }

  lemma {:induction false} EverLarger(c: Coercion, o: map<string, Node>, flat: map<string, Scalar>,
                                      order: seq<string>, i: nat, b: nat)
    returns (j: nat, x: Scalar)
    requires MadeOfParts(c) && Flattens(Dict(o), "", flat) && Enumerates(order, flat.Keys)
    requires PutAll(c, map[], order, flat) == Some(o) && ConvertsAt(c, flat, order, i)
    ensures PartAt(c, flat, order, j, x) && b <= Size(x)
  {
    hide PutAll, Flattens, MadeOfParts, ConvertsAt, Size;
    if b == 0 {
      j, x := LargerPart(c, o, flat, order, i);
    } else {
      var k, y := EverLarger(c, o, flat, order, i, b - 1);
      PartConverts(c, flat, order, k, y);
      j, x := LargerPart(c, o, flat, order, k);
    }
  }

  lemma PartConverts(c: Coercion, flat: map<string, Scalar>, order: seq<string>, i: nat, w: Scalar)
    requires forall s :: s in order ==> s in flat
    requires PartAt(c, flat, order, i, w)
    ensures ConvertsAt(c, flat, order, i)
  {
  }

  function TotalSize(flat: map<string, Scalar>, order: seq<string>): nat
    requires forall s :: s in order ==> s in flat
  {
    if order == [] then 0 else TotalSize(flat, order[..|order| - 1]) + Size(flat[order[|order| - 1]])
  }

  lemma {:induction false} AtMostTotal(flat: map<string, Scalar>, order: seq<string>, i: nat)
    requires i < |order| && forall s :: s in order ==> s in flat
    ensures Size(flat[order[i]]) <= TotalSize(flat, order)
  {
    if i < |order| - 1 {
      AtMostTotal(flat, order[..|order| - 1], i);
    }
  }

  /** In a round trip no override ever turns a section into another one. */
  lemma NoConversions(c: Coercion, o: map<string, Node>, flat: map<string, Scalar>, order: seq<string>, i: nat)
    requires MadeOfParts(c) && Flattens(Dict(o), "", flat) && Enumerates(order, flat.Keys)
    requires PutAll(c, map[], order, flat) == Some(o)
    ensures !ConvertsAt(c, flat, order, i)
  {
    if ConvertsAt(c, flat, order, i) {
      var j, x := EverLarger(c, o, flat, order, i, TotalSize(flat, order));
      PartConverts(c, flat, order, j, x);
      PartsAreSmaller(c, flat, order, j, flat[order[j]]);
      AtMostTotal(flat, order, j);
      assert false;
    }
  }

  lemma {:induction false} PutAllShape(c: Coercion, flat: map<string, Scalar>, order: seq<string>)
    requires forall s :: s in order ==> s in flat
    requires forall i: nat :: !ConvertsAt(c, flat, order, i)
    ensures PutAll(c, map[], order, flat).Some? ==>
      NoEmptySections(PutAll(c, map[], order, flat).value) && DotFreeKeys(PutAll(c, map[], order, flat).value)
  {
    if order != [] {
      var n := |order| - 1;
      assert forall i :: 0 <= i < n ==> order[..n][..i] == order[..i] && order[..n][i] == order[i];
      hide Split, NodeAt, WrittenNode, Put;
      forall i: nat
        ensures !ConvertsAt(c, flat, order[..n], i)
      {
        assert !ConvertsAt(c, flat, order, i);
      }
      PutAllShape(c, flat, order[..n]);
      if PutAll(c, map[], order[..n], flat).Some? {
        var m := PutAll(c, map[], order[..n], flat).value;
        assert !ConvertsAt(c, flat, order, n);
        UnconvertedIsSolid(c, m, Split(order[n]), flat[order[n]]);
        PutShape(c, m, Split(order[n]), flat[order[n]]);
      }
    }
  }

  /** The round trip holds for exactly the flattenable configurations. */
  lemma RoundTripExactly(c: Coercion, o: map<string, Node>, flat: map<string, Scalar>, order: seq<string>)
    requires MadeOfParts(c) && Flattens(Dict(o), "", flat) && Enumerates(order, flat.Keys)
    ensures PutAll(c, map[], order, flat) == Some(o) <==> Flattenable(o)
  {
    if Flattenable(o) {
      RoundTrip(c, o, flat, order);
    } else if PutAll(c, map[], order, flat) == Some(o) {
      forall i: nat
        ensures !ConvertsAt(c, flat, order, i)
      {
        NoConversions(c, o, flat, order, i);
      }
      PutAllShape(c, flat, order);
      forall q | LeafAt(Dict(o), q).Some?
        ensures q != [] && Join(q) in flat
      {
        DirectKey(c, flat, order, o, q);
      }
      NoUnnamedSection(o, flat);
      assert false;
    }
  }

  lemma DirectKey(c: Coercion, flat: map<string, Scalar>, order: seq<string>, o: map<string, Node>, q: Path)
    requires MadeOfParts(c) && Enumerates(order, flat.Keys) && PutAll(c, map[], order, flat) == Some(o)
    requires forall i: nat :: !ConvertsAt(c, flat, order, i)
    requires LeafAt(Dict(o), q).Some?
    ensures q != [] && Join(q) in flat
  {
    LeafOriginates(c, flat, order, q);
    hide LeafAt, PutAll, Split, Join, ConvertsAt, MadeOfParts;
    var w := LeafAt(Dict(o), q).value;
    var i: nat :| DirectAt(c, flat, order, i, q, w);
    JoinSplit(order[i]);
  }

  /** An empty section and a dotted key are lost on the way. */
  lemma LostOnTheWay(c: Coercion)
    ensures var o := map["a" := Dict(map[])];
      Flattens(Dict(o), "", map[]) && PutAll(c, map[], [], map[]) == Some(map[]) && o != map[]
    ensures var o := map["a.b" := Leaf(Int(1))];
      PutAll(c, map[], ["a.b"], map["a.b" := Int(1)]) == Some(map["a" := Dict(map["b" := Leaf(Int(1))])])
      && o != map["a" := Dict(map["b" := Leaf(Int(1))])]
  {
    var o := map["a" := Dict(map[])];
    forall p
      ensures LeafAt(Dict(o), p).None?
    {
      if p != [] && p[0] == "a" {
        NoLeaves(p[1..]);
      }
    }
    assert "a" in o && "a.b" in map["a.b" := Leaf(Int(1))] && "a.b" != "a";
    SplitFirst("a", "b");
    SplitOfDotFree("b");
    assert "a" + "." + "b" == "a.b" && ["a.b"][..0] == [];
    assert ["a"] + ["b"] == ["a", "b"] && ["a", "b"][1..] == ["b"];
    assert Put(c, map[], ["b"], Int(1)) == Some(map["b" := Leaf(Int(1))]);
    assert Put(c, map[], ["a", "b"], Int(1)) == Some(map["a" := Dict(map["b" := Leaf(Int(1))])]);
  }

  // A configuration with an unnamed top-level section cannot have only its own joined paths as flat keys.
  lemma NoUnnamedSection(o: map<string, Node>, flat: map<string, Scalar>)
    requires NoEmptySections(o) && DotFreeKeys(o) && Flattens(Dict(o), "", flat)
    requires forall q :: LeafAt(Dict(o), q).Some? ==> q != [] && Join(q) in flat
    ensures "" in o ==> o[""].Leaf?
  {
    if "" in o && o[""].Dict? {
      var q := SomeLeaf(o[""].entries);
      LeafAtChild(o, "", q);
      var key := Join([""] + q);
      assert q != [] && key[0] == '.';
      var r :| KeyOf("", r) == key && LeafAt(Dict(o), r) == Some(flat[key]);
      LeafPathShape(o, r);
      KeyHasNoLeadingDot(r);
      assert false;
    }
  }
}
