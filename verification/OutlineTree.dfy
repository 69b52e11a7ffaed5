/** Listing a node and what is under it, depth first, children in sibling order. */
module OutlineTree {
  import opened Text
  import Seqs

  type Id = nat

  datatype Entry = Entry(parent: Option<Id>, ordinal: int, node: Id)

  /** The outline's entries, and the nodes there are: an entry can name one that is gone. */
  datatype Outline = Outline(nodes: set<Id>, entries: seq<Entry>, maxDepth: Option<nat>)

  /** `hidden` is how many children the depth limit cut off. */
  datatype Line = Line(depth: nat, node: Id, hidden: nat)

  // ---- Children in sibling order ------------------------------------------------------------

  type Kid = (int, Id)

  predicate Before(a: Kid, b: Kid) {
    a.0 < b.0 || (a.0 == b.0 && a.1 <= b.1)
  }

  predicate Ordered(kids: seq<Kid>) {
    forall i, j :: 0 <= i < j < |kids| ==> Before(kids[i], kids[j])
  }

  function Grouped(entries: seq<Entry>, parent: Option<Id>): seq<Kid> {
    if entries == [] then []
    else
      var before, e := Grouped(entries[..|entries| - 1], parent), entries[|entries| - 1];
      if e.parent == parent then before + [(e.ordinal, e.node)] else before
  }

  function Inserted(kids: seq<Kid>, kid: Kid): seq<Kid> {
    if kids == [] || Before(kid, kids[0]) then [kid] + kids else [kids[0]] + Inserted(kids[1..], kid)
  }

  function Sorted(kids: seq<Kid>): seq<Kid> {
    if kids == [] then [] else Inserted(Sorted(kids[..|kids| - 1]), kids[|kids| - 1])
  }

  lemma {:induction false} InsertedIsOrdered(kids: seq<Kid>, kid: Kid)
    requires Ordered(kids)
    ensures Ordered(Inserted(kids, kid)) && multiset(Inserted(kids, kid)) == multiset(kids) + multiset{kid}
  {
    if kids == [] {
    } else if Before(kid, kids[0]) {
      assert multiset([kid] + kids) == multiset{kid} + multiset(kids);
    } else {
      InsertedIsOrdered(kids[1..], kid);
      assert kids == [kids[0]] + kids[1..];
      var rest := Inserted(kids[1..], kid);
      forall i | 0 <= i < |rest| ensures Before(kids[0], rest[i]) {
        assert rest[i] in multiset(rest);
        assert rest[i] in multiset(kids[1..]) ==> rest[i] in kids[1..];
      }
    }
  }

  lemma {:induction false} SortedIsOrdered(kids: seq<Kid>)
    ensures var sorted := Sorted(kids);
            && multiset(sorted) == multiset(kids)
            && forall i, j :: 0 <= i < j < |sorted| ==> sorted[i].0 < sorted[j].0 || (sorted[i].0 == sorted[j].0 && sorted[i].1 <= sorted[j].1)
    ensures Ordered(Sorted(kids))
  {
    if kids != [] {
      SortedIsOrdered(kids[..|kids| - 1]);
      InsertedIsOrdered(Sorted(kids[..|kids| - 1]), kids[|kids| - 1]);
      assert kids == kids[..|kids| - 1] + [kids[|kids| - 1]];
    }
  }

  /** The children of a node, by ordinal and then by id. */
  function KidsOf(entries: seq<Entry>, id: Id): seq<Kid> {
    Sorted(Grouped(entries, Some(id)))
  }

  // ---- The listing ------------------------------------------------------------------------

  predicate Expands(o: Outline, depth: nat) {
    o.maxDepth.Some? ==> depth < o.maxDepth.value
  }

  /** Without a depth limit, following children must end: `rank` falls from parent to child. */
  ghost predicate Ends(o: Outline, rank: Id -> nat) {
    o.maxDepth.None? ==> Acyclic(o, rank)
  }

  ghost predicate Acyclic(o: Outline, rank: Id -> nat) {
    forall e :: e in o.entries && e.parent.Some? ==> rank(e.node) < rank(e.parent.value)
  }

  ghost function Left(o: Outline, rank: Id -> nat, id: Id, depth: nat): nat {
    if o.maxDepth.None? then rank(id)
    else if depth < o.maxDepth.value then o.maxDepth.value - depth
    else 0
  }

  lemma {:induction false} GroupedAreEntries(entries: seq<Entry>, parent: Option<Id>, kid: Kid)
    ensures kid in Grouped(entries, parent) <==> Entry(parent, kid.0, kid.1) in entries
  {
    if entries != [] {
      GroupedAreEntries(entries[..|entries| - 1], parent, kid);
      assert entries == entries[..|entries| - 1] + [entries[|entries| - 1]];
    }
  }

  lemma KidsAreEntries(entries: seq<Entry>, id: Id, kid: Kid)
    ensures kid in KidsOf(entries, id) <==> Entry(Some(id), kid.0, kid.1) in entries
  {
    var kids := Grouped(entries, Some(id));
    SortedIsOrdered(kids);
    GroupedAreEntries(entries, Some(id), kid);
    assert kid in multiset(Sorted(kids)) <==> kid in multiset(kids);
  }

  lemma KidsHaveLess(o: Outline, rank: Id -> nat, id: Id, depth: nat)
    requires Ends(o, rank) && Expands(o, depth)
    ensures forall kid :: kid in KidsOf(o.entries, id) ==> Left(o, rank, kid.1, depth + 1) < Left(o, rank, id, depth)
  {
    forall kid | kid in KidsOf(o.entries, id) ensures Left(o, rank, kid.1, depth + 1) < Left(o, rank, id, depth) {
      KidsAreEntries(o.entries, id, kid);
    }
  }

  function Flat(parts: seq<seq<Line>>): seq<Line> {
    if parts == [] then [] else parts[0] + Flat(parts[1..])
  }

  function LineOf(o: Outline, id: Id, depth: nat): Line {
    Line(depth, id, if Expands(o, depth) then 0 else |KidsOf(o.entries, id)|)
  }

  /** The node, then each child's listing in sibling order; a node that is gone hides what is
      under it. */
  ghost function Preorder(o: Outline, rank: Id -> nat, id: Id, depth: nat): seq<Line>
    requires Ends(o, rank)
    decreases Left(o, rank, id, depth), 1
  {
    if id !in o.nodes then []
    else [LineOf(o, id, depth)] + if Expands(o, depth) then Under(o, rank, id, depth) else []
  }

  ghost function Under(o: Outline, rank: Id -> nat, id: Id, depth: nat): seq<Line>
    requires Ends(o, rank) && Expands(o, depth)
    decreases Left(o, rank, id, depth), 0
  {
    KidsHaveLess(o, rank, id, depth);
    var kids := KidsOf(o.entries, id);
    Flat(seq(|kids|, i requires 0 <= i < |kids| => Preorder(o, rank, kids[i].1, depth + 1)))
  }

  /** The stack, as the listing still to come: the top first. */
  ghost function Coming(o: Outline, rank: Id -> nat, stack: seq<(Id, nat)>): seq<Line>
    requires Ends(o, rank)
  {
    if stack == [] then []
    else
      var top := stack[|stack| - 1];
      Preorder(o, rank, top.0, top.1) + Coming(o, rank, stack[..|stack| - 1])
  }

  /** `stack` with the kids from the last on pushed: the first ends on top. */
  function Pushed(stack: seq<(Id, nat)>, kids: seq<Kid>, depth: nat): seq<(Id, nat)> {
    if kids == [] then stack else Pushed(stack, kids[1..], depth) + [(kids[0].1, depth)]
  }

  ghost function Listings(o: Outline, rank: Id -> nat, kids: seq<Kid>, depth: nat): seq<seq<Line>>
    requires Ends(o, rank)
  {
    seq(|kids|, i requires 0 <= i < |kids| => Preorder(o, rank, kids[i].1, depth))
  }

  lemma {:induction false} PushedComes(o: Outline, rank: Id -> nat, stack: seq<(Id, nat)>, kids: seq<Kid>, depth: nat)
    requires Ends(o, rank)
    ensures Coming(o, rank, Pushed(stack, kids, depth)) == Flat(Listings(o, rank, kids, depth)) + Coming(o, rank, stack)
  {
    if kids == [] {
      assert Listings(o, rank, kids, depth) == [];
    } else {
      PushedComes(o, rank, stack, kids[1..], depth);
      var pushed := Pushed(stack, kids, depth);
      assert pushed[..|pushed| - 1] == Pushed(stack, kids[1..], depth);
      assert Listings(o, rank, kids, depth)[1..] == Listings(o, rank, kids[1..], depth);
      assert Coming(o, rank, pushed) == Preorder(o, rank, kids[0].1, depth) + (Flat(Listings(o, rank, kids[1..], depth)) + Coming(o, rank, stack));
    }
  }

  // ---- The loops ----------------------------------------------------------------------------

  method InsertKid(kids: seq<Kid>, kid: Kid) returns (longer: seq<Kid>)
    ensures longer == Inserted(kids, kid)
  {
    var at := 0;
    while at < |kids| && !Before(kid, kids[at])
      invariant 0 <= at <= |kids|
      invariant Inserted(kids, kid) == kids[..at] + Inserted(kids[at..], kid)
    {
      assert kids[at..][1..] == kids[at + 1..];
      assert kids[..at + 1] == kids[..at] + [kids[at]];
      at := at + 1;
    }
    longer := kids[..at] + [kid] + kids[at..];
  }

  method Sort(kids: seq<Kid>) returns (sorted: seq<Kid>)
    ensures sorted == Sorted(kids)
  {
    sorted := [];
    for i := 0 to |kids|
      invariant sorted == Sorted(kids[..i])
    {
      assert kids[..i + 1][..i] == kids[..i];
      sorted := InsertKid(sorted, kids[i]);
    }
    assert kids[..|kids|] == kids;
  }

  function Get(children: map<Option<Id>, seq<Kid>>, parent: Option<Id>): seq<Kid> {
    if parent in children then children[parent] else []
  }

  method GroupChildren(entries: seq<Entry>) returns (children: map<Option<Id>, seq<Kid>>)
    ensures forall parent :: Get(children, parent) == Sorted(Grouped(entries, parent))
  {
    children := map[];
    for i := 0 to |entries|
      invariant forall parent :: Get(children, parent) == Grouped(entries[..i], parent)
    {
      assert entries[..i + 1][..i] == entries[..i];
      var e := entries[i];
      children := children[e.parent := Get(children, e.parent) + [(e.ordinal, e.node)]];
    }
    assert entries[..|entries|] == entries;
    ghost var grouped := children;
    var left := children.Keys;
    while left != {}
      invariant left <= children.Keys
      invariant children.Keys == grouped.Keys
      invariant forall parent :: parent in left ==> children[parent] == grouped[parent]
      invariant forall parent :: parent in children.Keys - left ==> children[parent] == Sorted(grouped[parent])
      decreases left
    {
      var parent :| parent in left;
      left := left - {parent};
      var sorted := Sort(children[parent]);
      children := children[parent := sorted];
    }
    forall parent ensures Get(children, parent) == Sorted(Grouped(entries, parent)) {
      assert Get(grouped, parent) == Grouped(entries, parent);
    }
  }

  method PushKids(stack: seq<(Id, nat)>, kids: seq<Kid>, depth: nat) returns (longer: seq<(Id, nat)>)
    ensures longer == Pushed(stack, kids, depth)
  {
    longer := stack;
    var i := |kids|;
    while i > 0
      invariant 0 <= i <= |kids| && longer == Pushed(stack, kids[i..], depth)
    {
      i := i - 1;
      assert kids[i..][1..] == kids[i + 1..];
      longer := longer + [(kids[i].1, depth)];
    }
  }

  /** What the listing does with the top of the stack. */
  lemma TopComes(o: Outline, rank: Id -> nat, rest: seq<(Id, nat)>, id: Id, depth: nat)
    requires Ends(o, rank)
    ensures var kids := KidsOf(o.entries, id);
            Coming(o, rank, rest + [(id, depth)]) ==
              if id !in o.nodes then Coming(o, rank, rest)
              else [LineOf(o, id, depth)] + Coming(o, rank, if Expands(o, depth) then Pushed(rest, kids, depth + 1) else rest)
  {
    var stack, kids := rest + [(id, depth)], KidsOf(o.entries, id);
    assert stack[..|stack| - 1] == rest;
    if id in o.nodes && Expands(o, depth) {
      PushedComes(o, rank, rest, kids, depth + 1);
      UnderIsListings(o, rank, id, depth);
      Seqs.Assoc([LineOf(o, id, depth)], Under(o, rank, id, depth), Coming(o, rank, rest));
    }
  }

  lemma {:induction false} UnderIsListings(o: Outline, rank: Id -> nat, id: Id, depth: nat)
    requires Ends(o, rank) && Expands(o, depth)
    ensures Under(o, rank, id, depth) == Flat(Listings(o, rank, KidsOf(o.entries, id), depth + 1))
  {
    KidsHaveLess(o, rank, id, depth);
    var kids := KidsOf(o.entries, id);
    assert Listings(o, rank, kids, depth + 1) == seq(|kids|, i requires 0 <= i < |kids| => Preorder(o, rank, kids[i].1, depth + 1));
  }

  lemma {:induction false} RootComes(o: Outline, rank: Id -> nat, root: Id)
    requires Ends(o, rank)
    ensures Coming(o, rank, [(root, 0)]) == Preorder(o, rank, root, 0) && Coming(o, rank, []) == []
  {
  }

  /** The listing's loop: what it lists is the preorder. */
  method Tree(o: Outline, root: Id, ghost rank: Id -> nat) returns (lines: seq<Line>)
    requires Ends(o, rank)
    ensures lines == Preorder(o, rank, root, 0)
  {
    hide Coming, Preorder, KidsOf;
    var children := GroupChildren(o.entries);
    lines := [];
    var stack: seq<(Id, nat)> := [(root, 0)];
    RootComes(o, rank, root);
    while stack != []
      invariant lines + Coming(o, rank, stack) == Preorder(o, rank, root, 0)
      decreases |Coming(o, rank, stack)|, |stack|
    {
      var id, depth := stack[|stack| - 1].0, stack[|stack| - 1].1;
      assert stack == stack[..|stack| - 1] + [(id, depth)];
      stack := stack[..|stack| - 1];
      TopComes(o, rank, stack, id, depth);
      if id !in o.nodes {
        continue;
      }
      var kids := Get(children, Some(id));
      assert kids == KidsOf(o.entries, id) by { KidsAreSorted(o.entries, id); }
      var expand := o.maxDepth.None? || depth < o.maxDepth.value;
      var line := Line(depth, id, if expand then 0 else |kids|);
      if expand {
        stack := PushKids(stack, kids, depth + 1);
      }
      Seqs.Assoc(lines, [line], Coming(o, rank, stack));
      lines := lines + [line];
    }
  }

  lemma {:induction false} KidsAreSorted(entries: seq<Entry>, id: Id)
    ensures KidsOf(entries, id) == Sorted(Grouped(entries, Some(id)))
  {
  }

  // ---- What is listed -----------------------------------------------------------------------

  /** `id` is `steps` children below `top`, through nodes that exist. */
  ghost predicate Below(o: Outline, top: Id, id: Id, steps: nat)
    decreases steps
  {
    top in o.nodes
    && if steps == 0 then id == top
       else exists kid :: kid in KidsOf(o.entries, top) && Below(o, kid.1, id, steps - 1)
  }

  lemma {:induction false} InFlat(parts: seq<seq<Line>>, line: Line)
    ensures line in Flat(parts) <==> exists i :: 0 <= i < |parts| && line in parts[i]
  {
    if parts != [] {
      InFlat(parts[1..], line);
      if line in Flat(parts[1..]) {
        var i :| 0 <= i < |parts[1..]| && line in parts[1..][i];
        assert line in parts[i + 1];
      }
      if i :| 0 <= i < |parts| && line in parts[i] {
        assert i > 0 ==> line in parts[1..][i - 1];
      }
    }
  }

  lemma {:induction false} InUnder(o: Outline, rank: Id -> nat, id: Id, depth: nat, line: Line)
    requires Ends(o, rank) && Expands(o, depth)
    ensures line in Under(o, rank, id, depth) <==>
            exists kid :: kid in KidsOf(o.entries, id) && line in Preorder(o, rank, kid.1, depth + 1)
  {
    hide Preorder, Under, KidsOf;
    UnderIsListings(o, rank, id, depth);
    var kids := KidsOf(o.entries, id);
    var parts := Listings(o, rank, kids, depth + 1);
    InFlat(parts, line);
    if line in Flat(parts) {
      var i :| 0 <= i < |parts| && line in parts[i];
      assert kids[i] in kids;
    }
    if kid :| kid in kids && line in Preorder(o, rank, kid.1, depth + 1) {
      var i :| 0 <= i < |kids| && kids[i] == kid;
      assert line in parts[i];
    }
  }

  predicate Within(o: Outline, depth: nat) {
    o.maxDepth.Some? ==> depth <= o.maxDepth.value
  }

  lemma {:induction false} PreorderUnfolds(o: Outline, rank: Id -> nat, id: Id, depth: nat)
    requires Ends(o, rank)
    ensures id !in o.nodes ==> Preorder(o, rank, id, depth) == []
    ensures id in o.nodes ==> Preorder(o, rank, id, depth) == [LineOf(o, id, depth)] + if Expands(o, depth) then Under(o, rank, id, depth) else []
  {
  }

  lemma BelowUnfolds(o: Outline, top: Id, id: Id, steps: nat)
    ensures Below(o, top, id, steps) <==>
            && top in o.nodes
            && if steps == 0 then id == top
               else exists kid :: kid in KidsOf(o.entries, top) && Below(o, kid.1, id, steps - 1)
  {
  }

  function PlacesUnder(entries: seq<Entry>, id: Id): set<nat> {
    set i: nat | i < |entries| && entries[i].parent == Some(id)
  }

  lemma {:induction false} KidsAreCounted(entries: seq<Entry>, id: Id)
    ensures |Grouped(entries, Some(id))| == |PlacesUnder(entries, id)|
  {
    if entries == [] {
      assert PlacesUnder(entries, id) == {};
    } else {
      var before := entries[..|entries| - 1];
      KidsAreCounted(before, id);
      assert PlacesUnder(entries, id) ==
        PlacesUnder(before, id) + if entries[|before|].parent == Some(id) then {|before|} else {};
    }
  }

  lemma LineShows(o: Outline, id: Id, depth: nat)
    requires Within(o, depth)
    ensures LineOf(o, id, depth) ==
            Line(depth, id, if o.maxDepth == Some(depth) then |PlacesUnder(o.entries, id)| else 0)
  {
    var kids := Grouped(o.entries, Some(id));
    SortedIsOrdered(kids);
    assert |multiset(Sorted(kids))| == |multiset(kids)|;
    KidsAreCounted(o.entries, id);
  }

  /** A line is listed exactly when its node is that far below the root and within the limit, and
      it counts as hidden the children of a node on the limit, and none elsewhere. */
  lemma {:induction false} ListsWhatIsBelow(o: Outline, rank: Id -> nat, top: Id, depth: nat, line: Line)
    requires Ends(o, rank) && Within(o, depth)
    ensures line in Preorder(o, rank, top, depth) <==>
            && depth <= line.depth && Within(o, line.depth)
            && Below(o, top, line.node, line.depth - depth)
            && line.hidden == (if o.maxDepth == Some(line.depth) then |PlacesUnder(o.entries, line.node)| else 0)
    decreases Left(o, rank, top, depth)
  {
    hide Preorder, Under, Below, KidsOf, LineOf;
    PreorderUnfolds(o, rank, top, depth);
    BelowUnfolds(o, top, line.node, if line.depth >= depth then line.depth - depth else 0);
    if top in o.nodes && Expands(o, depth) {
      KidsHaveLess(o, rank, top, depth);
      InUnder(o, rank, top, depth, line);
      forall kid | kid in KidsOf(o.entries, top)
        ensures line in Preorder(o, rank, kid.1, depth + 1) <==>
                && depth + 1 <= line.depth && Within(o, line.depth)
                && Below(o, kid.1, line.node, line.depth - depth - 1)
                && line.hidden == (if o.maxDepth == Some(line.depth) then |PlacesUnder(o.entries, line.node)| else 0)
      {
        ListsWhatIsBelow(o, rank, kid.1, depth + 1, line);
      }
    }
    LineShows(o, top, depth);
  }

  // ---- Each node once -------------------------------------------------------------------------

  /** An outline gives a node one place. */
  predicate OnePlace(entries: seq<Entry>) {
    forall i, j :: 0 <= i < j < |entries| ==> entries[i].node != entries[j].node
  }

  predicate KidsDiffer(kids: seq<Kid>) {
    forall i, j :: 0 <= i < j < |kids| ==> kids[i].1 != kids[j].1
  }

  lemma {:induction false} GroupedDiffer(entries: seq<Entry>, parent: Option<Id>)
    requires OnePlace(entries)
    ensures KidsDiffer(Grouped(entries, parent))
  {
    if entries != [] {
      var before, e := entries[..|entries| - 1], entries[|entries| - 1];
      GroupedDiffer(before, parent);
      forall kid | kid in Grouped(before, parent) ensures kid.1 != e.node {
        GroupedAreEntries(before, parent, kid);
        var i :| 0 <= i < |before| && before[i] == Entry(parent, kid.0, kid.1);
        assert entries[i].node != entries[|entries| - 1].node;
      }
    }
  }

  lemma {:induction false} InsertedDiffer(kids: seq<Kid>, kid: Kid)
    requires KidsDiffer(kids) && forall k :: k in kids ==> k.1 != kid.1
    ensures KidsDiffer(Inserted(kids, kid)) && forall k :: k in Inserted(kids, kid) <==> k in kids || k == kid
  {
    if kids == [] || Before(kid, kids[0]) {
    } else {
      InsertedDiffer(kids[1..], kid);
      assert kids == [kids[0]] + kids[1..];
      var rest := Inserted(kids[1..], kid);
      forall i | 0 <= i < |rest| ensures rest[i].1 != kids[0].1 {
        assert rest[i] in rest;
        if rest[i] != kid {
          var j :| 0 <= j < |kids[1..]| && kids[1..][j] == rest[i];
          assert kids[j + 1] == rest[i];
        }
      }
    }
  }

  lemma {:induction false} SortedDiffer(kids: seq<Kid>)
    requires KidsDiffer(kids)
    ensures KidsDiffer(Sorted(kids)) && forall k :: k in Sorted(kids) <==> k in kids
  {
    if kids != [] {
      SortedDiffer(kids[..|kids| - 1]);
      assert kids == kids[..|kids| - 1] + [kids[|kids| - 1]];
      InsertedDiffer(Sorted(kids[..|kids| - 1]), kids[|kids| - 1]);
    }
  }

  lemma {:induction false} BelowFalls(o: Outline, rank: Id -> nat, top: Id, id: Id, steps: nat)
    requires Acyclic(o, rank) && Below(o, top, id, steps)
    ensures rank(id) + steps <= rank(top)
    decreases steps
  {
    hide KidsOf;
    if steps > 0 {
      var kid :| kid in KidsOf(o.entries, top) && Below(o, kid.1, id, steps - 1);
      KidsAreEntries(o.entries, top, kid);
      BelowFalls(o, rank, kid.1, id, steps - 1);
    }
  }

  predicate ParentOf(o: Outline, id: Id, parent: Id) {
    exists e :: e in o.entries && e.node == id && e.parent == Some(parent)
  }

  lemma OneParent(o: Outline, id: Id, a: Id, b: Id)
    requires OnePlace(o.entries) && ParentOf(o, id, a) && ParentOf(o, id, b)
    ensures a == b
  {
    var e, f :| e in o.entries && e.node == id && e.parent == Some(a) && f in o.entries && f.node == id && f.parent == Some(b);
    var i, j :| 0 <= i < |o.entries| && o.entries[i] == e && 0 <= j < |o.entries| && o.entries[j] == f;
    assert i == j;
  }

  lemma KidHasParent(o: Outline, top: Id, kid: Kid)
    requires kid in KidsOf(o.entries, top)
    ensures ParentOf(o, kid.1, top)
  {
    KidsAreEntries(o.entries, top, kid);
  }

  /** The last step of a path, instead of its first. */
  lemma {:induction false} LastStep(o: Outline, top: Id, id: Id, steps: nat) returns (parent: Id)
    requires steps > 0 && Below(o, top, id, steps)
    ensures Below(o, top, parent, steps - 1) && ParentOf(o, id, parent)
    decreases steps
  {
    hide KidsOf, ParentOf;
    var kid :| kid in KidsOf(o.entries, top) && Below(o, kid.1, id, steps - 1);
    if steps == 1 {
      KidHasParent(o, top, kid);
      return top;
    } else {
      parent := LastStep(o, kid.1, id, steps - 1);
      assert Below(o, kid.1, parent, steps - 2);
    }
  }

  lemma {:induction false} BelowNone(o: Outline, top: Id, id: Id)
    requires Below(o, top, id, 0)
    ensures id == top
  {
  }

  /** Of two nodes above the same one, the farther is above the nearer. */
  lemma {:induction false} AboveInLine(o: Outline, x: Id, y: Id, id: Id, a: nat, b: nat)
    requires OnePlace(o.entries) && Below(o, x, id, a) && Below(o, y, id, b) && a <= b
    ensures Below(o, y, x, b - a)
    decreases a
  {
    hide Below, ParentOf;
    if a == 0 {
      BelowNone(o, x, id);
    } else {
      var p := LastStep(o, x, id, a);
      var q := LastStep(o, y, id, b);
      OneParent(o, id, p, q);
      AboveInLine(o, x, y, p, a - 1, b - 1);
    }
  }

  lemma ParentIsHigher(o: Outline, rank: Id -> nat, id: Id, parent: Id)
    requires Acyclic(o, rank) && ParentOf(o, id, parent)
    ensures rank(id) < rank(parent)
  {
  }

  /** What is below one child is not below another. */
  lemma {:induction false} SiblingsDontMeet(o: Outline, rank: Id -> nat, top: Id, x: Id, y: Id, id: Id, a: nat, b: nat)
    requires OnePlace(o.entries) && Acyclic(o, rank) && ParentOf(o, x, top) && ParentOf(o, y, top)
    requires Below(o, x, id, a) && Below(o, y, id, b) && a <= b
    ensures x == y
  {
    hide Below, ParentOf;
    AboveInLine(o, x, y, id, a, b);
    if a < b {
      var p := LastStep(o, y, x, b - a);
      OneParent(o, x, p, top);
      BelowFalls(o, rank, y, top, b - a - 1);
      ParentIsHigher(o, rank, y, top);
    } else {
      BelowNone(o, y, x);
    }
  }

  predicate EachOnce(lines: seq<Line>) {
    forall i, j :: 0 <= i < j < |lines| ==> lines[i].node != lines[j].node
  }

  predicate Apart(a: seq<Line>, b: seq<Line>) {
    forall l, m :: l in a && m in b ==> l.node != m.node
  }

  lemma {:induction false} FlatOnce(parts: seq<seq<Line>>)
    requires forall i :: 0 <= i < |parts| ==> EachOnce(parts[i])
    requires forall i, j :: 0 <= i < j < |parts| ==> Apart(parts[i], parts[j])
    ensures EachOnce(Flat(parts))
  {
    if parts != [] {
      FlatOnce(parts[1..]);
      forall l, m | l in parts[0] && m in Flat(parts[1..]) ensures l.node != m.node {
        InFlat(parts[1..], m);
        var j :| 0 <= j < |parts[1..]| && m in parts[1..][j];
        assert Apart(parts[0], parts[j + 1]);
      }
      JoinedOnce(parts[0], Flat(parts[1..]));
    }
  }

  lemma JoinedOnce(a: seq<Line>, b: seq<Line>)
    requires EachOnce(a) && EachOnce(b) && Apart(a, b)
    ensures EachOnce(a + b)
  {
    forall i, j | 0 <= i < j < |a + b| ensures (a + b)[i].node != (a + b)[j].node {
      if i < |a| <= j {
        assert a[i] in a && b[j - |a|] in b;
      }
    }
  }

  lemma {:induction false} SiblingListingsApart(o: Outline, rank: Id -> nat, top: Id, x: Id, y: Id, depth: nat)
    requires OnePlace(o.entries) && Acyclic(o, rank) && Within(o, depth)
    requires ParentOf(o, x, top) && ParentOf(o, y, top) && x != y
    ensures Apart(Preorder(o, rank, x, depth), Preorder(o, rank, y, depth))
  {
    hide Preorder, ParentOf, OnePlace, Acyclic, Below, LineOf;
    forall l, m | l in Preorder(o, rank, x, depth) && m in Preorder(o, rank, y, depth) ensures l.node != m.node {
      ListsWhatIsBelow(o, rank, x, depth, l);
      ListsWhatIsBelow(o, rank, y, depth, m);
      if l.node == m.node {
        var a, b := l.depth - depth, m.depth - depth;
        if a <= b {
          SiblingsDontMeet(o, rank, top, x, y, l.node, a, b);
        } else {
          SiblingsDontMeet(o, rank, top, y, x, l.node, b, a);
        }
      }
    }
  }

  /** On a forest, each node is listed at most once. */
  lemma {:induction false} ListsEachOnce(o: Outline, rank: Id -> nat, top: Id, depth: nat)
    requires OnePlace(o.entries) && Acyclic(o, rank) && Within(o, depth)
    ensures EachOnce(Preorder(o, rank, top, depth))
    decreases Left(o, rank, top, depth)
  {
    if top in o.nodes && Expands(o, depth) {
      hide KidsOf;
      KidsHaveLess(o, rank, top, depth);
      UnderIsListings(o, rank, top, depth);
      var kids := KidsOf(o.entries, top);
      var parts := Listings(o, rank, kids, depth + 1);
      KidsDifferHere(o, top);
      forall i | 0 <= i < |parts| ensures EachOnce(parts[i]) {
        assert kids[i] in kids;
        ListsEachOnce(o, rank, kids[i].1, depth + 1);
      }
      forall i, j | 0 <= i < j < |parts| ensures Apart(parts[i], parts[j]) {
        KidHasParent(o, top, kids[i]);
        KidHasParent(o, top, kids[j]);
        SiblingListingsApart(o, rank, top, kids[i].1, kids[j].1, depth + 1);
      }
      FlatOnce(parts);
      TopNotUnder(o, rank, top, depth);
      JoinedOnce([LineOf(o, top, depth)], Under(o, rank, top, depth));
    }
  }

  lemma KidsDifferHere(o: Outline, top: Id)
    requires OnePlace(o.entries)
    ensures KidsDiffer(KidsOf(o.entries, top))
  {
    GroupedDiffer(o.entries, Some(top));
    SortedDiffer(Grouped(o.entries, Some(top)));
  }

  lemma {:induction false} TopNotUnder(o: Outline, rank: Id -> nat, top: Id, depth: nat)
    requires Acyclic(o, rank) && Expands(o, depth)
    ensures Apart([LineOf(o, top, depth)], Under(o, rank, top, depth))
  {
    hide Preorder, Under, KidsOf;
    forall m | m in Under(o, rank, top, depth) ensures m.node != top {
      InUnder(o, rank, top, depth, m);
      var kid :| kid in KidsOf(o.entries, top) && m in Preorder(o, rank, kid.1, depth + 1);
      ListsWhatIsBelow(o, rank, kid.1, depth + 1, m);
      BelowFalls(o, rank, kid.1, m.node, m.depth - depth - 1);
      KidsAreEntries(o.entries, top, kid);
    }
  }
}
