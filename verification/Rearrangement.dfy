/** Moving the items of a configuration past each other, at any depth and among any surroundings. */
module Rearrangement {
  import opened Text
  import opened Proposals
  import opened SwanctlIr
  import opened Context
  import opened Forest
  import opened Meaning
  import opened Grammar
  import opened Views
  import opened Invariance

  /** The first two items change places: settings of different keys, blocks of different names, or one of each. */
  predicate HeadsExchanged(f: Forest, g: Forest) {
    match f
    case Assign(a, Assign(b, rest)) => KeyOf(a) != KeyOf(b) && g == Assign(b, Assign(a, rest))
    case Assign(a, Block(h, x, rest)) => g == Block(h, x, Assign(a, rest))
    case Block(h, x, Assign(a, rest)) => g == Assign(a, Block(h, x, rest))
    case Block(h, x, Block(i, y, rest)) => Strip(h) != Strip(i) && g == Block(i, y, Block(h, x, rest))
    case _ => false
  }

  /** Two neighbours somewhere in the document, inside any number of blocks, change places. */
  predicate Exchanged(f: Forest, g: Forest) {
    || HeadsExchanged(f, g)
    || match (f, g)
       case (Assign(a, f'), Assign(b, g')) => a == b && Exchanged(f', g')
       case (Block(h, x, f'), Block(i, y, g')) =>
         h == i && ((x == y && Exchanged(f', g')) || (Exchanged(x, y) && f' == g'))
       case _ => false
  }

  /** A run of single exchanges. */
  ghost predicate Exchanges(steps: seq<Forest>) {
    |steps| > 0 && forall i :: 0 < i < |steps| ==> Exchanged(steps[i - 1], steps[i])
  }

  /** `g` arises from `f` by exchanges of neighbours. */
  ghost predicate Rearranged(f: Forest, g: Forest) {
    exists steps :: Exchanges(steps) && steps[0] == f && steps[|steps| - 1] == g
  }

  // One level at a time

  lemma {:induction false} ExchangeInRole(f: Forest, g: Forest)
    requires Exchanged(f, g)
    ensures forall m :: RoleOf(f, m) == RoleOf(g, m)
    decreases f
  {
    hide KeyOf, ValueOf, Strip;
    if HeadsExchanged(f, g) {
      forall m ensures RoleOf(f, m) == RoleOf(g, m) {
        assert f.Assign? && f.rest.Assign? ==>
          m[KeyOf(f.text) := ValueOf(f.text)][KeyOf(f.rest.text) := ValueOf(f.rest.text)]
          == m[KeyOf(f.rest.text) := ValueOf(f.rest.text)][KeyOf(f.text) := ValueOf(f.text)];
      }
    } else if f.rest != g.rest {
      ExchangeInRole(f.rest, g.rest);
    }
  }

  lemma ChildSettingsCommute(c: ChildSa, k: string, v: string, l: string, w: string)
    requires k != l
    ensures var a, b := SetChild(c, k, v).GetOr(c), SetChild(c, l, w).GetOr(c);
      SetChild(a, l, w).GetOr(a) == SetChild(b, k, v).GetOr(b)
  {
    hide ParseProposalsList, ParseInt;
  }

  lemma {:induction false} ExchangeInChild(f: Forest, g: Forest)
    requires Exchanged(f, g)
    ensures forall c :: ChildOf(f, c) == ChildOf(g, c)
    decreases f
  {
    hide KeyOf, ValueOf, Strip, SetChild;
    if HeadsExchanged(f, g) {
      if f.Assign? && f.rest.Assign? {
        forall c ensures ChildOf(f, c) == ChildOf(g, c) {
          ChildSettingsCommute(c, KeyOf(f.text), ValueOf(f.text), KeyOf(g.text), ValueOf(g.text));
        }
      }
    } else if f.rest != g.rest {
      ExchangeInChild(f.rest, g.rest);
    }
  }

  lemma {:induction false} ExchangeInChildren(f: Forest, g: Forest)
    requires Exchanged(f, g)
    ensures forall m :: ChildrenOf(f, m) == ChildrenOf(g, m)
    decreases f
  {
    hide KeyOf, Strip, ChildOf;
    if HeadsExchanged(f, g) {
      forall m ensures ChildrenOf(f, m) == ChildrenOf(g, m) {
        if f.Block? && f.rest.Block? {
          PutsCommute(m, Strip(f.header), ChildOf(f.body, DefaultChild(Strip(f.header))),
                      Strip(g.header), ChildOf(g.body, DefaultChild(Strip(g.header))));
        }
      }
    } else if f.rest != g.rest {
      ExchangeInChildren(f.rest, g.rest);
    } else if f.Block? && f.body != g.body {
      ExchangeInChild(f.body, g.body);
    }
  }

  lemma PutsCommute<V>(m: map<string, V>, k: string, v: V, l: string, w: V)
    requires k != l
    ensures m[k := v][l := w] == m[l := w][k := v]
  {}

  lemma SettingsCommute(c: Connection, k: string, v: string, l: string, w: string)
    requires k != l
    ensures var a, b := SetConnection(c, k, v).GetOr(c), SetConnection(c, l, w).GetOr(c);
      SetConnection(a, l, w).GetOr(a) == SetConnection(b, k, v).GetOr(b)
  {
    hide SetConnection, ParseProposalsList, ParseInt, SaysYes;
    var a, b := SetConnection(c, k, v).GetOr(c), SetConnection(c, l, w).GetOr(c);
    SetConnectionFields(c, k, v);
    SetConnectionFields(c, l, w);
    SetConnectionFields(a, l, w);
    SetConnectionFields(b, k, v);
  }

  lemma SubBlockFields(name: string, body: Forest, c: Connection)
    ensures SubBlock(name, body, c) == c.(
      local := if name == "local" then RoleOf(body, c.local) else c.local,
      remote := if name == "remote" then RoleOf(body, c.remote) else c.remote,
      children := if name == "children" then ChildrenOf(body, c.children) else c.children)
  {
    hide RoleOf, ChildrenOf;
  }

  lemma SettingAndBlockCommute(c: Connection, k: string, v: string, n: string, body: Forest)
    ensures SubBlock(n, body, SetConnection(c, k, v).GetOr(c))
         == var b := SubBlock(n, body, c); SetConnection(b, k, v).GetOr(b)
  {
    hide SetConnection, SubBlock, ParseProposalsList, ParseInt, SaysYes, RoleOf, ChildrenOf;
    var a, b := SetConnection(c, k, v).GetOr(c), SubBlock(n, body, c);
    SetConnectionFields(c, k, v);
    SetConnectionFields(b, k, v);
    SubBlockFields(n, body, c);
    SubBlockFields(n, body, a);
  }

  lemma BlocksCommute(c: Connection, n: string, x: Forest, l: string, y: Forest)
    requires n != l
    ensures SubBlock(l, y, SubBlock(n, x, c)) == SubBlock(n, x, SubBlock(l, y, c))
  {
    hide SubBlock, RoleOf, ChildrenOf;
    SubBlockFields(n, x, c);
    SubBlockFields(l, y, c);
    SubBlockFields(l, y, SubBlock(n, x, c));
    SubBlockFields(n, x, SubBlock(l, y, c));
  }

  lemma HeadsInConnection(f: Forest, g: Forest, c: Connection)
    requires HeadsExchanged(f, g)
    ensures ConnectionOf(f, c) == ConnectionOf(g, c)
  {
    hide KeyOf, ValueOf, Strip, SubBlock, SetConnection;
    match f
    case Assign(a, Assign(b, _)) => SettingsCommute(c, KeyOf(a), ValueOf(a), KeyOf(b), ValueOf(b));
    case Assign(a, Block(h, x, _)) => SettingAndBlockCommute(c, KeyOf(a), ValueOf(a), Strip(h), x);
    case Block(h, x, Assign(a, _)) => SettingAndBlockCommute(c, KeyOf(a), ValueOf(a), Strip(h), x);
    case Block(h, x, Block(i, y, _)) => BlocksCommute(c, Strip(h), x, Strip(i), y);
  }

  lemma ExchangeInSubBlock(name: string, x: Forest, y: Forest, c: Connection)
    requires Exchanged(x, y)
    ensures SubBlock(name, x, c) == SubBlock(name, y, c)
  {
    ExchangeInRole(x, y);
    ExchangeInChildren(x, y);
  }

  lemma {:induction false} ExchangeInConnection(f: Forest, g: Forest)
    requires Exchanged(f, g)
    ensures forall c :: ConnectionOf(f, c) == ConnectionOf(g, c)
    decreases f
  {
    hide KeyOf, ValueOf, Strip, SubBlock, SetConnection;
    if HeadsExchanged(f, g) {
      hide HeadsExchanged;
      forall c ensures ConnectionOf(f, c) == ConnectionOf(g, c) { HeadsInConnection(f, g, c); }
    } else if f.rest != g.rest {
      ExchangeInConnection(f.rest, g.rest);
    } else if f.Block? && f.body != g.body {
      forall c ensures SubBlock(Strip(f.header), f.body, c) == SubBlock(Strip(f.header), g.body, c) {
        ExchangeInSubBlock(Strip(f.header), f.body, g.body, c);
      }
    }
  }

  lemma {:induction false} ExchangeInConnections(f: Forest, g: Forest)
    requires Exchanged(f, g)
    ensures forall m :: ConnectionsOf(f, m) == ConnectionsOf(g, m)
    decreases f
  {
    hide KeyOf, Strip, ConnectionOf;
    if HeadsExchanged(f, g) {
      forall m ensures ConnectionsOf(f, m) == ConnectionsOf(g, m) {
        if f.Block? && f.rest.Block? {
          PutsCommute(m, Strip(f.header), ConnectionOf(f.body, DefaultConnection(Strip(f.header))),
                      Strip(g.header), ConnectionOf(g.body, DefaultConnection(Strip(g.header))));
        }
      }
    } else if f.rest != g.rest {
      ExchangeInConnections(f.rest, g.rest);
    } else if f.Block? && f.body != g.body {
      ExchangeInConnection(f.body, g.body);
    }
  }

  /** One exchange anywhere leaves the connections as they are. */
  lemma {:induction false} ExchangeKeepsConnections(f: Forest, g: Forest)
    requires Exchanged(f, g)
    ensures forall m :: TopConnections(f, m) == TopConnections(g, m)
    decreases f
  {
    hide KeyOf, Strip, ConnectionsOf;
    if HeadsExchanged(f, g) {
    } else if f.rest != g.rest {
      ExchangeKeepsConnections(f.rest, g.rest);
    } else if f.Block? && f.body != g.body {
      ExchangeInConnections(f.body, g.body);
    }
  }

  /** So does any number of them. */
  lemma {:induction false} RunOfExchanges(steps: seq<Forest>)
    requires Exchanges(steps)
    ensures Means(steps[0]).connections == Means(steps[|steps| - 1]).connections
    decreases |steps|
  {
    hide Exchanged;
    if |steps| > 1 {
      var last := |steps| - 1;
      RunOfExchanges(steps[..last]);
      assert Exchanged(steps[last - 1], steps[last]);
      ExchangeKeepsConnections(steps[last - 1], steps[last]);
    }
  }

  lemma RearrangingKeepsConnections(f: Forest, g: Forest)
    requires Rearranged(f, g)
    ensures Means(f).connections == Means(g).connections
  {
    var steps :| Exchanges(steps) && steps[0] == f && steps[|steps| - 1] == g;
    RunOfExchanges(steps);
  }

  lemma {:induction false} ExchangeKeepsAcceptable(f: Forest, g: Forest, depth: nat)
    requires Exchanged(f, g) && Acceptable(f, depth)
    ensures Acceptable(g, depth) && |Flatten(g)| == |Flatten(f)|
    decreases f
  {
    hide KeyOf, Strip;
    if !HeadsExchanged(f, g) {
      if f.rest != g.rest {
        ExchangeKeepsAcceptable(f.rest, g.rest, depth);
      } else if f.Block? && f.body != g.body {
        ExchangeKeepsAcceptable(f.body, g.body, depth + 1);
      }
    }
  }

  lemma {:induction false} RunKeepsAcceptable(steps: seq<Forest>)
    requires Exchanges(steps) && Acceptable(steps[0], 0)
    ensures Acceptable(steps[|steps| - 1], 0)
    decreases |steps|
  {
    hide Exchanged, Acceptable;
    if |steps| > 1 {
      var last := |steps| - 1;
      RunKeepsAcceptable(steps[..last]);
      assert Exchanged(steps[last - 1], steps[last]);
      ExchangeKeepsAcceptable(steps[last - 1], steps[last], 0);
    }
  }

  /** An accepted document stays accepted, unless a block called `{` has come to stand right behind another item. */
  lemma RearrangingKeepsReading(tokens: seq<string>, f: Forest, g: Forest)
    requires Reads(tokens, f) && Rearranged(f, g) && Readable(g)
    ensures Reads(Flatten(g), g)
  {
    var steps :| Exchanges(steps) && steps[0] == f && steps[|steps| - 1] == g;
    RunKeepsAcceptable(steps);
  }

  // Which orders of a block's items are reached

  /** Items with one label must keep their order. */
  datatype Label = OfKey(key: string) | OfName(name: string)

  function LabelOf(x: Item): Label {
    match x
    case Setting(t) => OfKey(KeyOf(t))
    case Group(h, _) => OfName(Strip(h))
  }

  function Cons(x: Item, f: Forest): Forest {
    match x
    case Setting(t) => Assign(t, f)
    case Group(h, body) => Block(h, body, f)
  }

  function FromItems(items: seq<Item>): Forest {
    if items == [] then Empty else Cons(items[0], FromItems(items[1..]))
  }

  /** The items with a label, in order. */
  function Labelled(items: seq<Item>, l: Label): seq<Item> {
    if items == [] then [] else (if LabelOf(items[0]) == l then [items[0]] else []) + Labelled(items[1..], l)
  }

  lemma RearrangedRefl(f: Forest)
    ensures Rearranged(f, f)
  {
    assert Exchanges([f]) && [f][0] == f;
  }

  lemma RearrangedStep(f: Forest, g: Forest)
    requires Exchanged(f, g)
    ensures Rearranged(f, g)
  {
    hide Exchanged;
    var steps := [f, g];
    assert Exchanges(steps) && steps[0] == f && steps[|steps| - 1] == g;
  }

  lemma RearrangedTrans(f: Forest, g: Forest, h: Forest)
    requires Rearranged(f, g) && Rearranged(g, h)
    ensures Rearranged(f, h)
  {
    hide Exchanged;
    var a :| Exchanges(a) && a[0] == f && a[|a| - 1] == g;
    var b :| Exchanges(b) && b[0] == g && b[|b| - 1] == h;
    var steps := a + b[1..];
    forall i | 0 < i < |steps| ensures Exchanged(steps[i - 1], steps[i]) {
      if i < |a| {
        assert Exchanged(a[i - 1], a[i]);
      } else {
        assert steps[i] == b[i - |a| + 1] && steps[i - 1] == b[i - |a|];
      }
    }
    assert Exchanges(steps) && steps[0] == f && steps[|steps| - 1] == h;
  }

  lemma ExchangedBehind(x: Item, f: Forest, g: Forest)
    requires Exchanged(f, g)
    ensures Exchanged(Cons(x, f), Cons(x, g))
  {
    hide KeyOf, Strip;
  }

  /** What can be rearranged can be so behind any item, and inside any block. */
  lemma RearrangedBehind(x: Item, f: Forest, g: Forest)
    requires Rearranged(f, g)
    ensures Rearranged(Cons(x, f), Cons(x, g))
  {
    hide Exchanged, Cons;
    var a :| Exchanges(a) && a[0] == f && a[|a| - 1] == g;
    var steps := seq(|a|, i requires 0 <= i < |a| => Cons(x, a[i]));
    forall i | 0 < i < |steps| ensures Exchanged(steps[i - 1], steps[i]) { ExchangedBehind(x, a[i - 1], a[i]); }
    assert Exchanges(steps) && steps[0] == Cons(x, f) && steps[|steps| - 1] == Cons(x, g);
  }

  lemma ExchangedInside(h: string, f: Forest, g: Forest, rest: Forest)
    requires Exchanged(f, g)
    ensures Exchanged(Block(h, f, rest), Block(h, g, rest))
  {
    hide KeyOf, Strip;
  }

  lemma RearrangedInside(h: string, f: Forest, g: Forest, rest: Forest)
    requires Rearranged(f, g)
    ensures Rearranged(Block(h, f, rest), Block(h, g, rest))
  {
    hide Exchanged;
    var a :| Exchanges(a) && a[0] == f && a[|a| - 1] == g;
    var steps := seq(|a|, i requires 0 <= i < |a| => Block(h, a[i], rest));
    forall i | 0 < i < |steps| ensures Exchanged(steps[i - 1], steps[i]) { ExchangedInside(h, a[i - 1], a[i], rest); }
    assert Exchanges(steps) && steps[0] == Block(h, f, rest) && steps[|steps| - 1] == Block(h, g, rest);
  }

  lemma DifferentLabelsExchange(x: Item, y: Item, f: Forest)
    requires LabelOf(x) != LabelOf(y)
    ensures Exchanged(Cons(x, Cons(y, f)), Cons(y, Cons(x, f)))
  {
    hide KeyOf, Strip;
  }

  /** An item moves to the front past items of other labels. */
  lemma {:induction false} ToFront(items: seq<Item>, i: nat)
    requires i < |items| && forall j :: 0 <= j < i ==> LabelOf(items[j]) != LabelOf(items[i])
    ensures Rearranged(FromItems(items), Cons(items[i], FromItems(items[..i] + items[i + 1..])))
    decreases |items|
  {
    hide Rearranged, Exchanged, LabelOf, Cons;
    var without := items[..i] + items[i + 1..];
    if i == 0 {
      assert without == items[1..];
      RearrangedRefl(FromItems(items));
    } else {
      var x, y := items[0], items[i];
      var rest := items[1..];
      assert rest[i - 1] == y && rest[..i - 1] + rest[i..] == without[1..] && without[0] == x;
      ToFront(rest, i - 1);
      RearrangedBehind(x, FromItems(rest), Cons(y, FromItems(without[1..])));
      DifferentLabelsExchange(x, y, FromItems(without[1..]));
      RearrangedStep(Cons(x, Cons(y, FromItems(without[1..]))), Cons(y, Cons(x, FromItems(without[1..]))));
      RearrangedTrans(FromItems(items), Cons(x, Cons(y, FromItems(without[1..]))), Cons(y, FromItems(without)));
    }
  }

  lemma {:induction false} FirstOfLabel(items: seq<Item>, l: Label) returns (i: nat)
    requires Labelled(items, l) != []
    ensures i < |items| && items[i] == Labelled(items, l)[0] && LabelOf(items[i]) == l
    ensures forall j :: 0 <= j < i ==> LabelOf(items[j]) != l
    ensures forall k ::
      Labelled(items[..i] + items[i + 1..], k) == (if k == l then Labelled(items, k)[1..] else Labelled(items, k))
    decreases |items|
  {
    hide LabelOf;
    if LabelOf(items[0]) == l {
      i := 0;
      assert items[..0] + items[1..] == items[1..];
    } else {
      var n := FirstOfLabel(items[1..], l);
      i := n + 1;
      var without := items[..i] + items[i + 1..];
      assert without[0] == items[0] && without[1..] == items[1..][..n] + items[1..][n + 1..];
      assert forall j :: 0 < j < i ==> items[j] == items[1..][j - 1];
    }
  }

  /** Any order is reached that keeps each key's settings and each name's blocks in order among themselves. */
  lemma {:induction false} AnyOrderIsReached(a: seq<Item>, b: seq<Item>)
    requires forall l :: Labelled(a, l) == Labelled(b, l)
    ensures Rearranged(FromItems(a), FromItems(b))
    decreases |b|
  {
    hide Rearranged, LabelOf, Cons;
    if b == [] {
      assert a != [] ==> Labelled(a, LabelOf(a[0])) != [];
      RearrangedRefl(Empty);
    } else {
      var l := LabelOf(b[0]);
      assert Labelled(b, l)[0] == b[0];
      var i := FirstOfLabel(a, l);
      var without := a[..i] + a[i + 1..];
      forall k ensures Labelled(without, k) == Labelled(b[1..], k) {
        assert Labelled(b, k) == (if k == l then [b[0]] else []) + Labelled(b[1..], k);
      }
      AnyOrderIsReached(without, b[1..]);
      RearrangedBehind(b[0], FromItems(without), FromItems(b[1..]));
      ToFront(a, i);
      RearrangedTrans(FromItems(a), Cons(b[0], FromItems(without)), FromItems(b));
    }
  }
}
