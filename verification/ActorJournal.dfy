/** The journal of who has to act for each node: what one look at all nodes changed since the
    last one. */
module ActorJournal {
  import opened Text

  type Node = nat

  datatype Work =
    | Conversation(protocol: string)
    | GateCheck
    | IncomingCheck
    | WorkRunner
    | Cloud
    | CloudStart
    | CloudRepair
    | OtherWork

  datatype Why = Request | Permission | Failed | StoppedRun | Paused | NotStarted

  datatype Wait = HumanReview | BotReview | Checks | Merge | Release | OtherWait

  datatype Kind = Working(what: Work) | You(why: Why) | Others(wait: Wait) | Done

  /** Who is next for a node; `words` is the reason in words, for the record. */
  datatype Actor = Actor(kind: Kind, words: string)

  function WorkKey(what: Work): string {
    match what
    case Conversation(protocol) => "conversation." + protocol
    case GateCheck => "gate_check"
    case IncomingCheck => "incoming_check"
    case WorkRunner => "runner"
    case Cloud => "cloud"
    case CloudStart => "cloud_start"
    case CloudRepair => "cloud_repair"
    case OtherWork => "other"
  }

  function WhyKey(why: Why): string {
    match why
    case Request => "request"
    case Permission => "permission"
    case Failed => "failed"
    case StoppedRun => "stopped"
    case Paused => "paused"
    case NotStarted => "not_started"
  }

  function WaitKey(wait: Wait): string {
    match wait
    case HumanReview => "human_review"
    case BotReview => "bot_review"
    case Checks => "checks"
    case Merge => "merge"
    case Release => "release"
    case OtherWait => "other"
  }

  function Key(kind: Kind): (r: string)
    ensures r != ""
  {
    match kind
    case Working(what) => "working:" + WorkKey(what)
    case You(why) => "you:" + WhyKey(why)
    case Others(wait) => "others:" + WaitKey(wait)
    case Done => "done"
  }

  /** The keys that records of the journal are read by. */
  lemma KeysAre(protocol: string)
    ensures Key(Working(Conversation(protocol))) == "working:" + ("conversation." + protocol)
    ensures Key(Working(GateCheck)) == "working:" + "gate_check" && Key(Working(IncomingCheck)) == "working:" + "incoming_check"
    ensures Key(Working(WorkRunner)) == "working:" + "runner" && Key(Working(Cloud)) == "working:" + "cloud"
    ensures Key(Working(CloudStart)) == "working:" + "cloud_start" && Key(Working(CloudRepair)) == "working:" + "cloud_repair"
    ensures Key(Working(OtherWork)) == "working:" + "other"
    ensures Key(You(Request)) == "you:" + "request" && Key(You(Permission)) == "you:" + "permission"
    ensures Key(You(Failed)) == "you:" + "failed" && Key(You(StoppedRun)) == "you:" + "stopped"
    ensures Key(You(Paused)) == "you:" + "paused" && Key(You(NotStarted)) == "you:" + "not_started"
    ensures Key(Others(HumanReview)) == "others:" + "human_review" && Key(Others(BotReview)) == "others:" + "bot_review"
    ensures Key(Others(Checks)) == "others:" + "checks" && Key(Others(Merge)) == "others:" + "merge"
    ensures Key(Others(Release)) == "others:" + "release" && Key(Others(OtherWait)) == "others:" + "other"
    ensures Key(Done) == "done"
  {
  }

  function Initial(kind: Kind): char {
    match kind
    case Working(_) => 'w'
    case You(_) => 'y'
    case Others(_) => 'o'
    case Done => 'd'
  }

  lemma WorkKeysDiffer(a: Work, b: Work)
    requires a != b
    ensures WorkKey(a) != WorkKey(b)
  {
    if a.Conversation? && b.Conversation? {
      assert WorkKey(a)[|"conversation."|..] == a.protocol && WorkKey(b)[|"conversation."|..] == b.protocol;
    } else if a.Conversation? {
      assert WorkKey(a)[12] == '.';
    } else if b.Conversation? {
      assert WorkKey(b)[12] == '.';
    } else {
      assert |WorkKey(a)| != |WorkKey(b)| || WorkKey(a)[0] != WorkKey(b)[0];
    }
  }

  lemma WhyKeysDiffer(a: Why, b: Why)
    requires a != b
    ensures WhyKey(a) != WhyKey(b)
  {
    assert |WhyKey(a)| != |WhyKey(b)| || WhyKey(a)[0] != WhyKey(b)[0];
  }

  lemma WaitKeysDiffer(a: Wait, b: Wait)
    requires a != b
    ensures WaitKey(a) != WaitKey(b)
  {
    assert |WaitKey(a)| != |WaitKey(b)| || WaitKey(a)[0] != WaitKey(b)[0];
  }

  /** A key says exactly the actor and the reason under it. */
  lemma KeysTellKindsApart(a: Kind, b: Kind)
    ensures Key(a) == Key(b) <==> a == b
  {
    hide WorkKey, WhyKey, WaitKey;
    if a != b {
      assert Key(a)[0] == Initial(a) && Key(b)[0] == Initial(b);
      match a
      case Working(what) =>
        assert Key(a)[|"working:"|..] == WorkKey(what);
        if b.Working? {
          assert Key(b)[|"working:"|..] == WorkKey(b.what);
          WorkKeysDiffer(what, b.what);
        }
      case You(why) =>
        assert Key(a)[|"you:"|..] == WhyKey(why);
        if b.You? {
          assert Key(b)[|"you:"|..] == WhyKey(b.why);
          WhyKeysDiffer(why, b.why);
        }
      case Others(wait) =>
        assert Key(a)[|"others:"|..] == WaitKey(wait);
        if b.Others? {
          assert Key(b)[|"others:"|..] == WaitKey(b.wait);
          WaitKeysDiffer(wait, b.wait);
        }
      case Done =>
    }
  }

  // ---- Observing --------------------------------------------------------------------------

  type Keys = map<Node, string>

  datatype Change = Change(node: Node, from: string, to: string, words: string)

  function KeysOf(standings: map<Node, Actor>): Keys {
    map n | n in standings :: Key(standings[n].kind)
  }

  function Was(last: Keys, node: Node): string {
    if node in last then last[node] else ""
  }

  predicate Changed(last: Keys, standings: map<Node, Actor>, node: Node) {
    node in standings && (node in last ==> last[node] != Key(standings[node].kind))
  }

  function ChangeOf(last: Keys, standings: map<Node, Actor>, node: Node): Change
    requires node in standings
  {
    Change(node, Was(last, node), Key(standings[node].kind), standings[node].words)
  }

  predicate ByNode(changes: seq<Change>) {
    forall i, j :: 0 <= i < j < |changes| ==> changes[i].node < changes[j].node
  }

  /** The journal of one look: a change for each node whose key changed, in the order of nodes. */
  ghost predicate Tells(last: Option<Keys>, standings: map<Node, Actor>, changes: seq<Change>) {
    if last.None? then changes == []
    else
      && ByNode(changes)
      && forall c :: c in changes <==> Changed(last.value, standings, c.node) && c == ChangeOf(last.value, standings, c.node)
  }

  lemma InsertedAt(changes: seq<Change>, c: Change, at: nat)
    requires ByNode(changes) && at <= |changes|
    requires at > 0 ==> changes[at - 1].node < c.node
    requires at < |changes| ==> c.node < changes[at].node
    ensures ByNode(changes[..at] + [c] + changes[at..])
  {
    var longer := changes[..at] + [c] + changes[at..];
    forall i, j | 0 <= i < j < |longer| ensures longer[i].node < longer[j].node {
      var x, y := if i < at then i else i - 1, if j < at then j else j - 1;
      assert i != at ==> longer[i] == changes[x];
      assert j != at ==> longer[j] == changes[y];
    }
  }

  lemma InsertedIsIn(changes: seq<Change>, c: Change, at: nat)
    requires at <= |changes|
    ensures forall d :: d in changes[..at] + [c] + changes[at..] <==> d in changes || d == c
  {
    assert changes == changes[..at] + changes[at..];
  }

  class ActorTracker {
    var last: Option<Keys>

    constructor ()
      ensures last == None
    {
      last := None;
    }

    /** `sort_by_key`, one change at a time. */
    method Insert(changes: seq<Change>, c: Change) returns (longer: seq<Change>)
      requires ByNode(changes) && forall d :: d in changes ==> d.node != c.node
      ensures ByNode(longer) && forall d :: d in longer <==> d in changes || d == c
    {
      var at := |changes|;
      while at > 0 && changes[at - 1].node > c.node
        invariant 0 <= at <= |changes|
        invariant forall i :: at <= i < |changes| ==> changes[i].node > c.node
      {
        at := at - 1;
      }
      assert at > 0 ==> changes[at - 1] in changes;
      InsertedAt(changes, c, at);
      InsertedIsIn(changes, c, at);
      longer := changes[..at] + [c] + changes[at..];
    }

    method Observe(standings: map<Node, Actor>) returns (changes: seq<Change>)
      modifies this
      ensures last == Some(KeysOf(standings))
      ensures Tells(old(last), standings, changes)
    {
      var before := last;
      last := Some(KeysOf(standings));
      changes := [];
      if before.None? {
        return;
      }
      var left := standings.Keys;
      while left != {}
        invariant left <= standings.Keys && last == Some(KeysOf(standings))
        invariant ByNode(changes)
        invariant forall c :: c in changes <==>
                    Changed(before.value, standings, c.node) && c.node !in left && c == ChangeOf(before.value, standings, c.node)
        decreases left
      {
        var node :| node in left;
        left := left - {node};
        if node !in before.value || before.value[node] != Key(standings[node].kind) {
          changes := Insert(changes, ChangeOf(before.value, standings, node));
        }
      }
    }
  }

  lemma InTail(changes: seq<Change>)
    requires ByNode(changes) && changes != []
    ensures forall c :: c in changes[1..] <==> c in changes && c != changes[0]
  {
    assert changes == [changes[0]] + changes[1..];
  }

  lemma NotBothEmpty(a: seq<Change>, b: seq<Change>)
    requires a != [] && forall c :: c in a ==> c in b
    ensures b != []
  {
    assert a[0] in a;
  }

  /** What a look tells is determined. */
  lemma {:induction false} TellsOneThing(a: seq<Change>, b: seq<Change>)
    requires ByNode(a) && ByNode(b) && forall c :: c in a <==> c in b
    ensures a == b
  {
    if a == [] {
      if b != [] {
        NotBothEmpty(b, a);
      }
    } else {
      assert a[0] in b && b[0] in a;
      var i :| 0 <= i < |b| && b[i] == a[0];
      var j :| 0 <= j < |a| && a[j] == b[0];
      assert i == 0 && j == 0;
      InTail(a);
      InTail(b);
      TellsOneThing(a[1..], b[1..]);
    }
  }

  /** No change is told for a node that did not change, none twice, and none from the key itself. */
  lemma ChangesAreReal(last: Keys, standings: map<Node, Actor>, changes: seq<Change>, c: Change)
    requires Tells(Some(last), standings, changes) && c in changes
    ensures c.node in standings && c.from != c.to && c.to == Key(standings[c.node].kind)
    ensures c.words == standings[c.node].words
    ensures c.node in last ==> c.from == last[c.node]
    ensures c.node !in last ==> c.from == ""
    ensures forall d :: d in changes && d.node == c.node ==> d == c
  {
  }

  function Replayed(keys: Keys, changes: seq<Change>): Keys {
    if changes == [] then keys
    else Replayed(keys, changes[..|changes| - 1])[changes[|changes| - 1].node := changes[|changes| - 1].to]
  }

  lemma {:induction false} ReplayKeepsOthers(keys: Keys, changes: seq<Change>, node: Node)
    requires forall c :: c in changes ==> c.node != node
    ensures node in Replayed(keys, changes) <==> node in keys
    ensures node in keys ==> Replayed(keys, changes)[node] == keys[node]
  {
    if changes != [] {
      assert changes[|changes| - 1] in changes;
      ReplayKeepsOthers(keys, changes[..|changes| - 1], node);
    }
  }

  lemma {:induction false} ReplaySets(keys: Keys, changes: seq<Change>, k: nat)
    requires ByNode(changes) && k < |changes|
    ensures changes[k].node in Replayed(keys, changes) && Replayed(keys, changes)[changes[k].node] == changes[k].to
  {
    if k < |changes| - 1 {
      ReplaySets(keys, changes[..|changes| - 1], k);
      assert changes[k].node < changes[|changes| - 1].node;
    }
  }

  /** A journal: what each look after the first told. */
  ghost predicate Journal(looks: seq<map<Node, Actor>>, told: seq<seq<Change>>) {
    && |looks| == |told| + 1
    && forall i :: 0 <= i < |told| ==> Tells(Some(KeysOf(looks[i])), looks[i + 1], told[i])
  }

  function ReplayedAll(keys: Keys, told: seq<seq<Change>>): Keys {
    if told == [] then keys
    else Replayed(ReplayedAll(keys, told[..|told| - 1]), told[|told| - 1])
  }

  function Present(keys: Keys, nodes: set<Node>): Keys {
    map n | n in keys && n in nodes :: keys[n]
  }

  /** The journal replays: its changes, applied to the keys of the first look and cut down to the
      nodes present in the last, give exactly the keys of the last look. */
  lemma {:induction false} JournalReplays(looks: seq<map<Node, Actor>>, told: seq<seq<Change>>)
    requires Journal(looks, told)
    ensures Present(ReplayedAll(KeysOf(looks[0]), told), looks[|told|].Keys) == KeysOf(looks[|told|])
  {
    var first := KeysOf(looks[0]);
    if told != [] {
      var n := |told| - 1;
      assert Journal(looks[..n + 1], told[..n]);
      JournalReplays(looks[..n + 1], told[..n]);
      LookReplays(ReplayedAll(first, told[..n]), looks[n], looks[n + 1], told[n]);
    }
  }

  lemma {:induction false} LookReplaysAt(keys: Keys, before: map<Node, Actor>, standings: map<Node, Actor>, changes: seq<Change>, node: Node)
    requires Present(keys, before.Keys) == KeysOf(before) && Tells(Some(KeysOf(before)), standings, changes)
    requires node in standings
    ensures node in Replayed(keys, changes) && Replayed(keys, changes)[node] == Key(standings[node].kind)
  {
    hide Key, Replayed;
    var last := KeysOf(before);
    if Changed(last, standings, node) {
      assert ChangeOf(last, standings, node) in changes;
      var k :| 0 <= k < |changes| && changes[k] == ChangeOf(last, standings, node);
      ReplaySets(keys, changes, k);
    } else {
      ReplayKeepsOthers(keys, changes, node);
      assert node in Present(keys, before.Keys) && keys[node] == Present(keys, before.Keys)[node];
    }
  }

  lemma {:induction false} LookReplays(keys: Keys, before: map<Node, Actor>, standings: map<Node, Actor>, changes: seq<Change>)
    requires Present(keys, before.Keys) == KeysOf(before) && Tells(Some(KeysOf(before)), standings, changes)
    ensures Present(Replayed(keys, changes), standings.Keys) == KeysOf(standings)
  {
    hide Key, Replayed, Tells;
    var replayed := Replayed(keys, changes);
    forall node | node in standings ensures node in replayed && replayed[node] == Key(standings[node].kind) {
      LookReplaysAt(keys, before, standings, changes, node);
    }
  }
}
