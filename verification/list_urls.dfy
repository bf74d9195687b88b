/** The URL listing command's flattening of the URL configuration: include
    nodes contribute their route to the prefix of everything below them and
    each leaf yields one entry, in depth-first, left-to-right order. */
module ListUrls {
  import opened Wrappers
  import opened Strings

  /** A URL pattern: an `include()` with its route and nested patterns, or a
      leaf with its route, its name and its callback's module and function
      name ("" when the callback lacks the attribute). */
  datatype Pattern =
    | Include(route: Option<string>, children: seq<Pattern>)
    | Leaf(route: Option<string>, name: Option<string>, callbackModule: string, callbackName: string)

  /** One listed line: full route, pattern name and callback path. */
  datatype Entry = Entry(route: string, name: Option<string>, callback: string)

  /** `pattern._route or ''`. */
  function RouteText(r: Option<string>): string {
    r.GetOr("")
  }

  /** The number of leaves in a forest of patterns. */
  function LeavesIn(ps: seq<Pattern>): nat
    decreases ps
  {
    if ps == [] then 0 else LeavesOf(ps[0]) + LeavesIn(ps[1..])
  }

  function LeavesOf(p: Pattern): nat
    decreases p
  {
    match p
    case Include(_, cs) => LeavesIn(cs)
    case Leaf(_, _, _, _) => 1
  }

  /** `_iter_patterns(ps, prefix)`. */
  function IterAll(ps: seq<Pattern>, prefix: string): (r: seq<Entry>)
    ensures |r| == LeavesIn(ps)
    ensures forall k :: 0 <= k < |r| ==> StartsWith(r[k].route, prefix)
    decreases ps
  {
    if ps == [] then []
    else
      var head := IterOne(ps[0], prefix);
      var tail := IterAll(ps[1..], prefix);
      assert forall k :: |head| <= k < |head| + |tail| ==> (head + tail)[k] == tail[k - |head|];
      head + tail
  }

  /** The entries of one pattern under `prefix`. */
  function IterOne(p: Pattern, prefix: string): (r: seq<Entry>)
    ensures |r| == LeavesOf(p)
    ensures forall k :: 0 <= k < |r| ==> StartsWith(r[k].route, prefix)
    decreases p
  {
    match p
    case Include(route, cs) =>
      var r := IterAll(cs, prefix + RouteText(route));
      forall k | 0 <= k < |r| ensures StartsWith(r[k].route, prefix) {
        assert r[k].route[..|prefix|] == (prefix + RouteText(route))[..|prefix|];
      }
      r
    case Leaf(route, name, m, f) =>
      var e := Entry(prefix + RouteText(route), name, m + "." + f);
      assert e.route[..|prefix|] == prefix;
      [e]
  }

  /** The same entries with `a` put in front of every route. */
  function Prepend(a: string, es: seq<Entry>): (r: seq<Entry>)
    ensures |r| == |es|
  {
    if es == [] then [] else [es[0].(route := a + es[0].route)] + Prepend(a, es[1..])
  }

  lemma {:induction false} PrependAppend(a: string, x: seq<Entry>, y: seq<Entry>)
    ensures Prepend(a, x + y) == Prepend(a, x) + Prepend(a, y)
  {
    if x != [] {
      assert (x + y)[1..] == x[1..] + y;
      PrependAppend(a, x[1..], y);
    } else {
      assert x + y == y;
    }
  }

  /** Entries come out in order: the patterns of `a` before those of `b`. */
  lemma {:induction false} IterAppend(a: seq<Pattern>, b: seq<Pattern>, prefix: string)
    ensures IterAll(a + b, prefix) == IterAll(a, prefix) + IterAll(b, prefix)
  {
    if a != [] {
      assert (a + b)[0] == a[0];
      assert (a + b)[1..] == a[1..] + b;
      IterAppend(a[1..], b, prefix);
    } else {
      assert a + b == b;
    }
  }

  /** A route is the concatenation of the routes of its enclosing includes
      and its own: listing under `a + b` is listing under `b` with `a` put
      in front of every route. */
  lemma {:induction false} PrefixShiftAll(ps: seq<Pattern>, a: string, b: string)
    ensures IterAll(ps, a + b) == Prepend(a, IterAll(ps, b))
    decreases ps
  {
    if ps != [] {
      PrefixShiftOne(ps[0], a, b);
      PrefixShiftAll(ps[1..], a, b);
      PrependAppend(a, IterOne(ps[0], b), IterAll(ps[1..], b));
    }
  }

  lemma {:induction false} PrefixShiftOne(p: Pattern, a: string, b: string)
    ensures IterOne(p, a + b) == Prepend(a, IterOne(p, b))
    decreases p
  {
    match p
    case Include(route, cs) =>
      assert a + b + RouteText(route) == a + (b + RouteText(route));
      PrefixShiftAll(cs, a, b + RouteText(route));
    case Leaf(route, name, m, f) =>
      assert a + b + RouteText(route) == a + (b + RouteText(route));
  }

  /** An include contributes no entry of its own: its children are listed
      in its place, under its route, and a missing route adds nothing. */
  lemma {:induction false} IncludeIsTransparent(cs: seq<Pattern>, prefix: string)
    ensures IterOne(Include(None, cs), prefix) == IterAll(cs, prefix)
    ensures IterOne(Include(Some(""), cs), prefix) == IterAll(cs, prefix)
  {
    assert prefix + RouteText(None) == prefix;
    assert prefix + RouteText(Some("")) == prefix;
  }

  /** A leaf two includes deep is listed once, under the two include routes
      followed by its own, with its callback written `module.function`. */
  lemma {:induction false} NestedLeaf(a: string, b: string, c: string, name: Option<string>, m: string, f: string)
    ensures IterAll([Include(Some(a), [Include(Some(b), [Leaf(Some(c), name, m, f)])])], "")
      == [Entry(a + b + c, name, m + "." + f)]
  {
    var leaf := Leaf(Some(c), name, m, f);
    var inner := Include(Some(b), [leaf]);
    assert IterAll([leaf], "" + a + b) == [Entry("" + a + b + c, name, m + "." + f)] by {
      assert [leaf][1..] == [];
    }
    assert IterAll([inner], "" + a) == IterAll([leaf], "" + a + b) by {
      assert [inner][1..] == [];
    }
    assert [Include(Some(a), [inner])][1..] == [];
    assert "" + a + b + c == a + b + c;
  }
}
