/** A turn's reply as it is streamed: text, thoughts and tool calls, in order. */
module ReplyStream {
  import opened Text
  import Seqs

  datatype Part =
    | Message(text: string)
    | Thought(text: string)
    | Tool(id: string, title: string, status: string)

  /** What changes a reply: a notification of the agent, a clear of the whole reply (a turn
      starts, or a replay ended), or the provider's clear of the parts alone. */
  datatype Update =
    | MessageChunk(chunk: string)
    | ThoughtChunk(chunk: string)
    | ToolCall(id: string, title: string, status: string)
    | ClearReply
    | ClearParts

  datatype Reply = Reply(parts: seq<Part>, text: string)

  const EMPTY := Reply([], "")

  // ---- Updates, as functions -------------------------------------------------------------

  function TextPushed(parts: seq<Part>, thought: bool, chunk: string): seq<Part> {
    if chunk == "" then parts
    else if parts != [] && Last(parts).Message? && !thought then
      parts[|parts| - 1 := Message(Last(parts).text + chunk)]
    else if parts != [] && Last(parts).Thought? && thought then
      parts[|parts| - 1 := Thought(Last(parts).text + chunk)]
    else parts + [if thought then Thought(chunk) else Message(chunk)]
  }

  function Last(parts: seq<Part>): Part
    requires parts != []
  {
    parts[|parts| - 1]
  }

  predicate IsTool(p: Part, id: string) {
    p.Tool? && id != "" && p.id == id
  }

  /** The latest part that is the call `id`. */
  function FindTool(parts: seq<Part>, id: string): (at: Option<nat>)
    ensures at.Some? ==> at.value < |parts| && IsTool(parts[at.value], id)
    ensures at.None? <==> forall i :: 0 <= i < |parts| ==> !IsTool(parts[i], id)
  {
    if parts == [] then None
    else if IsTool(Last(parts), id) then Some(|parts| - 1)
    else FindTool(parts[..|parts| - 1], id)
  }

  function Kept(had: string, given: string): string {
    if given != "" then given else had
  }

  function ToolPushed(parts: seq<Part>, id: string, title: string, status: string): seq<Part> {
    match FindTool(parts, id)
    case Some(at) => parts[at := Tool(id, Kept(parts[at].title, title), Kept(parts[at].status, status))]
    case None => parts + [Tool(id, title, status)]
  }

  function Apply(r: Reply, u: Update): Reply {
    match u
    case MessageChunk(chunk) => Reply(TextPushed(r.parts, false, chunk), r.text + chunk)
    case ThoughtChunk(chunk) => r.(parts := TextPushed(r.parts, true, chunk))
    case ToolCall(id, title, status) => r.(parts := ToolPushed(r.parts, id, title, status))
    case ClearReply => EMPTY
    case ClearParts => r.(parts := [])
  }

  function After(updates: seq<Update>): Reply {
    if updates == [] then EMPTY else Apply(After(updates[..|updates| - 1]), updates[|updates| - 1])
  }

  // ---- The stream, as it is kept ---------------------------------------------------------

  /** The parts shared with the provider, and the text the turn will return. */
  class Stream {
    var parts: seq<Part>
    var assistantText: string

    ghost function Value(): Reply
      reads this
    {
      Reply(parts, assistantText)
    }

    constructor ()
      ensures Value() == EMPTY
    {
      parts, assistantText := [], "";
    }

    method PushText(thought: bool, chunk: string)
      modifies this`parts
      ensures parts == TextPushed(old(parts), thought, chunk)
    {
      if chunk == "" {
        return;
      }
      var last := |parts| - 1;
      if last >= 0 && parts[last].Message? && !thought {
        parts := parts[last := Message(parts[last].text + chunk)];
      } else if last >= 0 && parts[last].Thought? && thought {
        parts := parts[last := Thought(parts[last].text + chunk)];
      } else {
        parts := parts + [if thought then Thought(chunk) else Message(chunk)];
      }
    }

    /** Looks for the call from the latest part back. */
    method PushTool(id: string, title: string, status: string)
      modifies this`parts
      ensures parts == ToolPushed(old(parts), id, title, status)
    {
      var at := |parts|;
      assert parts[..at] == parts;
      while at > 0 && !IsTool(parts[at - 1], id)
        invariant 0 <= at <= |parts|
        invariant FindTool(parts, id) == FindTool(parts[..at], id)
      {
        assert parts[..at][..at - 1] == parts[..at - 1];
        at := at - 1;
      }
      if at == 0 {
        parts := parts + [Tool(id, title, status)];
      } else {
        var call := parts[at - 1];
        parts := parts[at - 1 := Tool(id, Kept(call.title, title), Kept(call.status, status))];
      }
    }

    method Handle(u: Update)
      modifies this
      ensures Value() == Apply(old(Value()), u)
    {
      match u
      case MessageChunk(chunk) =>
        assistantText := assistantText + chunk;
        PushText(false, chunk);
      case ThoughtChunk(chunk) =>
        PushText(true, chunk);
      case ToolCall(id, title, status) =>
        PushTool(id, title, status);
      case ClearReply =>
        assistantText := "";
        parts := [];
      case ClearParts =>
        parts := [];
    }
  }

  // ---- What every stream keeps -----------------------------------------------------------

  /** The message text of the parts, run together. */
  function TextOf(parts: seq<Part>): string {
    if parts == [] then ""
    else TextOf(parts[..|parts| - 1]) + if Last(parts).Message? then Last(parts).text else ""
  }

  predicate IsSuffix(a: string, b: string) {
    |a| <= |b| && b[|b| - |a|..] == a
  }

  ghost predicate WellShaped(parts: seq<Part>) {
    && (forall i :: 0 <= i < |parts| && !parts[i].Tool? ==> parts[i].text != "")
    && (forall i :: 0 < i < |parts| ==> !(parts[i - 1].Message? && parts[i].Message?))
    && (forall i :: 0 < i < |parts| ==> !(parts[i - 1].Thought? && parts[i].Thought?))
    && (forall i, j :: 0 <= i < j < |parts| && parts[i].Tool? && parts[j].Tool? && parts[i].id == parts[j].id
          ==> parts[i].id == "")
  }

  lemma {:induction false} TextOfToolChange(parts: seq<Part>, at: nat, call: Part)
    requires at < |parts| && parts[at].Tool? && call.Tool?
    ensures TextOf(parts[at := call]) == TextOf(parts)
  {
    var changed := parts[at := call];
    if at == |parts| - 1 {
      assert changed[..at] == parts[..at];
    } else {
      assert changed[..|parts| - 1] == parts[..|parts| - 1][at := call];
      TextOfToolChange(parts[..|parts| - 1], at, call);
    }
  }

  lemma {:induction false} TextOfPush(parts: seq<Part>, thought: bool, chunk: string)
    ensures TextOf(TextPushed(parts, thought, chunk)) == TextOf(parts) + if thought then "" else chunk
  {
    var pushed := TextPushed(parts, thought, chunk);
    if chunk == "" {
      assert TextOf(parts) + "" == TextOf(parts);
    } else if |pushed| == |parts| {
      assert pushed[..|parts| - 1] == parts[..|parts| - 1];
      var before := TextOf(parts[..|parts| - 1]);
      assert !thought ==> before + (Last(parts).text + chunk) == (before + Last(parts).text) + chunk;
      assert TextOf(parts) + "" == TextOf(parts);
    } else {
      assert pushed[..|parts|] == parts;
    }
  }

  lemma {:induction false} TextOfToolPushed(parts: seq<Part>, id: string, title: string, status: string)
    ensures TextOf(ToolPushed(parts, id, title, status)) == TextOf(parts)
  {
    var at := FindTool(parts, id);
    var pushed := ToolPushed(parts, id, title, status);
    if at.Some? {
      TextOfToolChange(parts, at.value, pushed[at.value]);
    } else {
      assert pushed[..|parts|] == parts;
      assert TextOf(parts) + "" == TextOf(parts);
    }
  }

  lemma ToolPushedKeepsShape(parts: seq<Part>, id: string, title: string, status: string)
    requires WellShaped(parts)
    ensures WellShaped(ToolPushed(parts, id, title, status))
  {
    var at := FindTool(parts, id);
    var pushed := ToolPushed(parts, id, title, status);
    if at.Some? {
      assert forall i :: 0 <= i < |parts| && parts[i].Tool? ==> pushed[i].id == parts[i].id;
      assert forall i :: 0 <= i < |parts| && i != at.value ==> pushed[i] == parts[i];
    } else {
      assert forall i :: 0 <= i < |parts| ==> pushed[i] == parts[i] && !IsTool(parts[i], id);
    }
  }

  lemma TextPushedKeepsShape(parts: seq<Part>, thought: bool, chunk: string)
    requires WellShaped(parts)
    ensures WellShaped(TextPushed(parts, thought, chunk))
  {
    var pushed := TextPushed(parts, thought, chunk);
    assert forall i :: 0 <= i < |parts| - 1 ==> pushed[i] == parts[i];
  }

  lemma SuffixGrows(a: string, b: string, c: string)
    requires IsSuffix(a, b)
    ensures IsSuffix(a + c, b + c)
  {
    assert (b + c)[|b| - |a|..] == b[|b| - |a|..] + c;
  }

  lemma ApplyKeepsShape(r: Reply, u: Update)
    requires WellShaped(r.parts)
    ensures WellShaped(Apply(r, u).parts)
  {
    match u
    case MessageChunk(chunk) => TextPushedKeepsShape(r.parts, false, chunk);
    case ThoughtChunk(chunk) => TextPushedKeepsShape(r.parts, true, chunk);
    case ToolCall(id, title, status) => ToolPushedKeepsShape(r.parts, id, title, status);
    case ClearReply =>
    case ClearParts =>
  }

  /** How an update changes the message text of the parts. */
  lemma ApplyChangesText(r: Reply, u: Update)
    ensures TextOf(Apply(r, u).parts) ==
            match u
            case MessageChunk(chunk) => TextOf(r.parts) + chunk
            case ClearReply => ""
            case ClearParts => ""
            case _ => TextOf(r.parts)
    ensures Apply(r, u).text ==
            match u
            case MessageChunk(chunk) => r.text + chunk
            case ClearReply => ""
            case _ => r.text
  {
    match u
    case MessageChunk(chunk) => TextOfPush(r.parts, false, chunk);
    case ThoughtChunk(chunk) =>
      TextOfPush(r.parts, true, chunk);
      assert TextOf(r.parts) + "" == TextOf(r.parts);
    case ToolCall(id, title, status) => TextOfToolPushed(r.parts, id, title, status);
    case ClearReply =>
    case ClearParts =>
  }

  /** At every update of every stream: no text or thought part is empty, no two neighbours
      are the same kind of text, each non-empty tool id has at most one part, and the message
      parts run together are the end of the text the turn returns. */
  lemma {:induction false} StreamIsWellShaped(updates: seq<Update>)
    ensures WellShaped(After(updates).parts)
    ensures IsSuffix(TextOf(After(updates).parts), After(updates).text)
  {
    hide ToolPushed, TextPushed;
    if updates == [] {
      assert WellShaped(EMPTY.parts);
    } else {
      var before, u := updates[..|updates| - 1], updates[|updates| - 1];
      StreamIsWellShaped(before);
      ApplyKeepsShape(After(before), u);
      ApplyChangesText(After(before), u);
      if u.MessageChunk? {
        SuffixGrows(TextOf(After(before).parts), After(before).text, u.chunk);
      }
    }
  }

  /** The provider cleared the parts since the reply was last cleared, and message text
      arrived before that. */
  function LostText(updates: seq<Update>): string {
    if updates == [] then ""
    else
      var before, u := updates[..|updates| - 1], updates[|updates| - 1];
      if u.ClearReply? then ""
      else if u.ClearParts? then After(before).text
      else LostText(before)
  }

  lemma NothingSaid()
    ensures EMPTY.text == TextOf(EMPTY.parts) == ""
  {
  }

  /** Exactly what the provider's clears took is missing from the parts: they are the whole
      text if and only if no message text had arrived when the parts were last cleared. */
  lemma {:induction false} PartsAreTheText(updates: seq<Update>)
    ensures After(updates).text == LostText(updates) + TextOf(After(updates).parts)
    ensures TextOf(After(updates).parts) == After(updates).text <==> LostText(updates) == ""
  {
    hide Apply, TextOf;
    if updates == [] {
      NothingSaid();
    } else {
      var before, u := updates[..|updates| - 1], updates[|updates| - 1];
      var r := After(before);
      PartsAreTheText(before);
      ApplyChangesText(r, u);
      if u.MessageChunk? {
        Seqs.Assoc(LostText(before), TextOf(r.parts), u.chunk);
      }
    }
  }

  // ---- The parts are what came, in order ---------------------------------------------------

  /** A reply, character by character: what was said, what was thought, and the calls. */
  datatype Atom = Said(c: char) | Thinks(c: char) | Calls(id: string, title: string, status: string)

  function Marked(thought: bool, text: string): (atoms: seq<Atom>)
    ensures |atoms| == |text|
    ensures forall i :: 0 <= i < |text| ==> atoms[i] == if thought then Thinks(text[i]) else Said(text[i])
  {
    seq(|text|, i requires 0 <= i < |text| => if thought then Thinks(text[i]) else Said(text[i]))
  }

  function AtomsOfPart(p: Part): seq<Atom> {
    match p
    case Message(text) => Marked(false, text)
    case Thought(text) => Marked(true, text)
    case Tool(id, title, status) => [Calls(id, title, status)]
  }

  function Atoms(parts: seq<Part>): seq<Atom> {
    if parts == [] then [] else Atoms(parts[..|parts| - 1]) + AtomsOfPart(Last(parts))
  }

  function Renewed(a: Atom, id: string, title: string, status: string): Atom {
    if a.Calls? && id != "" && a.id == id then Calls(id, Kept(a.title, title), Kept(a.status, status)) else a
  }

  predicate Called(atoms: seq<Atom>, id: string) {
    id != "" && exists i :: 0 <= i < |atoms| && atoms[i].Calls? && atoms[i].id == id
  }

  /** What came since the last clear: text of either kind and new calls at the end, in order, and
      a call that came before renewed where it stands. */
  function Came(updates: seq<Update>): seq<Atom> {
    if updates == [] then []
    else
      var before := Came(updates[..|updates| - 1]);
      match updates[|updates| - 1]
      case MessageChunk(chunk) => before + Marked(false, chunk)
      case ThoughtChunk(chunk) => before + Marked(true, chunk)
      case ToolCall(id, title, status) =>
        if Called(before, id) then seq(|before|, i requires 0 <= i < |before| => Renewed(before[i], id, title, status))
        else before + [Calls(id, title, status)]
      case _ => []
  }

  lemma {:induction false} AtomsOfLonger(parts: seq<Part>, p: Part)
    ensures Atoms(parts + [p]) == Atoms(parts) + AtomsOfPart(p)
  {
    assert (parts + [p])[..|parts|] == parts;
  }

  lemma MarkedTogether(thought: bool, a: string, b: string)
    ensures Marked(thought, a + b) == Marked(thought, a) + Marked(thought, b)
  {
  }

  lemma {:induction false} AtomsOfTextPushed(parts: seq<Part>, thought: bool, chunk: string)
    ensures Atoms(TextPushed(parts, thought, chunk)) == Atoms(parts) + Marked(thought, chunk)
  {
    hide Atoms, Marked;
    if chunk == "" {
      assert Marked(thought, chunk) == [] by { NothingMarked(thought); }
      Seqs.Neutral(Atoms(parts));
    } else if parts == [] {
      AtomsOfLonger(parts, if thought then Thought(chunk) else Message(chunk));
    } else {
      var init, last := parts[..|parts| - 1], Last(parts);
      assert parts == init + [last];
      AtomsOfLonger(init, last);
      if (last.Message? && !thought) || (last.Thought? && thought) {
        var longer := if thought then Thought(last.text + chunk) else Message(last.text + chunk);
        assert TextPushed(parts, thought, chunk) == init + [longer];
        AtomsOfLonger(init, longer);
        MarkedTogether(thought, last.text, chunk);
        Seqs.Assoc(Atoms(init), Marked(thought, last.text), Marked(thought, chunk));
      } else {
        AtomsOfLonger(parts, if thought then Thought(chunk) else Message(chunk));
      }
    }
  }

  lemma NothingMarked(thought: bool)
    ensures Marked(thought, "") == []
  {
  }

  function AllRenewed(atoms: seq<Atom>, id: string, title: string, status: string): (r: seq<Atom>)
    ensures |r| == |atoms| && forall i :: 0 <= i < |r| ==> r[i] == Renewed(atoms[i], id, title, status)
  {
    seq(|atoms|, i requires 0 <= i < |atoms| => Renewed(atoms[i], id, title, status))
  }

  lemma {:induction false} NoneRenewed(parts: seq<Part>, id: string, title: string, status: string)
    requires forall i :: 0 <= i < |parts| ==> !IsTool(parts[i], id)
    ensures !Called(Atoms(parts), id) && AllRenewed(Atoms(parts), id, title, status) == Atoms(parts)
  {
    if parts != [] {
      NoneRenewed(parts[..|parts| - 1], id, title, status);
    }
  }

  lemma RenewedTogether(a: seq<Atom>, b: seq<Atom>, id: string, title: string, status: string)
    ensures AllRenewed(a + b, id, title, status) == AllRenewed(a, id, title, status) + AllRenewed(b, id, title, status)
    ensures Called(a + b, id) <==> Called(a, id) || Called(b, id)
  {
    if i :| 0 <= i < |a| && a[i].Calls? && a[i].id == id {
      assert (a + b)[i] == a[i];
    }
    if i :| 0 <= i < |b| && b[i].Calls? && b[i].id == id {
      assert (a + b)[|a| + i] == b[i];
    }
    if i :| 0 <= i < |a + b| && (a + b)[i].Calls? && (a + b)[i].id == id {
      assert i < |a| || b[i - |a|] == (a + b)[i];
    }
  }

  lemma RenewalOfPart(p: Part, id: string, title: string, status: string)
    ensures Called(AtomsOfPart(p), id) <==> IsTool(p, id)
    ensures AllRenewed(AtomsOfPart(p), id, title, status)
         == AtomsOfPart(if IsTool(p, id) then Tool(id, Kept(p.title, title), Kept(p.status, status)) else p)
  {
    if IsTool(p, id) {
      assert AtomsOfPart(p)[0] == Calls(p.id, p.title, p.status);
    }
  }

  lemma {:induction false} AtomsOfRenewal(parts: seq<Part>, at: nat, id: string, title: string, status: string)
    requires at < |parts| && IsTool(parts[at], id) && forall i :: 0 <= i < |parts| && i != at ==> !IsTool(parts[i], id)
    ensures Called(Atoms(parts), id)
    ensures Atoms(parts[at := Tool(id, Kept(parts[at].title, title), Kept(parts[at].status, status))])
         == AllRenewed(Atoms(parts), id, title, status)
    decreases |parts|
  {
    hide Called, AllRenewed, AtomsOfPart, IsTool;
    var init, last := parts[..|parts| - 1], Last(parts);
    ToolIsTool(parts[at], id);
    var now := Tool(id, Kept(parts[at].title, title), Kept(parts[at].status, status));
    var changed := parts[at := now];
    RenewedTogether(Atoms(init), AtomsOfPart(last), id, title, status);
    RenewalOfPart(last, id, title, status);
    if at == |parts| - 1 {
      assert changed[..at] == init;
      NoneRenewed(init, id, title, status);
    } else {
      assert changed[..|parts| - 1] == init[at := now];
      AtomsOfRenewal(init, at, id, title, status);
    }
  }

  lemma ToolIsTool(p: Part, id: string)
    requires IsTool(p, id)
    ensures p.Tool?
  {
  }

  lemma OneToolPart(parts: seq<Part>, at: nat, id: string)
    requires WellShaped(parts) && at < |parts| && IsTool(parts[at], id)
    ensures forall i :: 0 <= i < |parts| && i != at ==> !IsTool(parts[i], id)
  {
  }

  lemma {:induction false} AtomsOfToolPushed(parts: seq<Part>, id: string, title: string, status: string)
    requires WellShaped(parts)
    ensures Atoms(ToolPushed(parts, id, title, status)) ==
            if Called(Atoms(parts), id) then AllRenewed(Atoms(parts), id, title, status) else Atoms(parts) + [Calls(id, title, status)]
  {
    hide WellShaped, Atoms, Called, AllRenewed;
    var at := FindTool(parts, id);
    if at.Some? {
      OneToolPart(parts, at.value, id);
      AtomsOfRenewal(parts, at.value, id, title, status);
    } else {
      NoneRenewed(parts, id, title, status);
      AtomsOfLonger(parts, Tool(id, title, status));
    }
  }

  /** Every stream's parts are what came, in order: no character of either kind of text is lost or
      moved, and each call stands where it first came. */
  lemma {:induction false} PartsAreWhatCame(updates: seq<Update>)
    ensures Atoms(After(updates).parts) == Came(updates)
  {
    hide WellShaped, Atoms, TextPushed, ToolPushed, Called;
    if updates == [] {
      assert Atoms([]) == [] by { NoAtoms(); }
    } else {
      var before, u := updates[..|updates| - 1], updates[|updates| - 1];
      var parts := After(before).parts;
      PartsAreWhatCame(before);
      StreamIsWellShaped(before);
      match u
      case MessageChunk(chunk) => AtomsOfTextPushed(parts, false, chunk);
      case ThoughtChunk(chunk) => AtomsOfTextPushed(parts, true, chunk);
      case ToolCall(id, title, status) =>
        AtomsOfToolPushed(parts, id, title, status);
        assert AllRenewed(Came(before), id, title, status)
            == seq(|Came(before)|, i requires 0 <= i < |Came(before)| => Renewed(Came(before)[i], id, title, status));
      case _ => NoAtoms();
    }
  }

  lemma NoAtoms()
    ensures Atoms([]) == []
  {
  }

  /** A part and what it has become: its kind, its tool id, and the text it had, extended. */
  predicate Grew(was: Part, now: Part) {
    match was
    case Message(text) => now.Message? && text <= now.text
    case Thought(text) => now.Thought? && text <= now.text
    case Tool(id, _, _) => now.Tool? && now.id == id
  }

  /** A notification never removes or reorders parts, and changes at most one of them. */
  lemma UpdatesKeepOrder(r: Reply, u: Update)
    requires !u.ClearReply? && !u.ClearParts?
    ensures var s := Apply(r, u);
            && |r.parts| <= |s.parts| <= |r.parts| + 1
            && (forall i :: 0 <= i < |r.parts| ==> Grew(r.parts[i], s.parts[i]))
            && (forall i, j :: 0 <= i < j < |r.parts| ==> r.parts[i] == s.parts[i] || r.parts[j] == s.parts[j])
            && (|s.parts| > |r.parts| ==> s.parts[..|r.parts|] == r.parts)
  {
  }

  // ---- What a tool call shows ------------------------------------------------------------

  /** The latest non-empty title given to the call `id` since the parts were last cleared. */
  function LatestTitle(updates: seq<Update>, id: string): string {
    if updates == [] then ""
    else
      var before, u := updates[..|updates| - 1], updates[|updates| - 1];
      if u.ClearReply? || u.ClearParts? then ""
      else if u.ToolCall? && u.id == id then Kept(LatestTitle(before, id), u.title)
      else LatestTitle(before, id)
  }

  function LatestStatus(updates: seq<Update>, id: string): string {
    if updates == [] then ""
    else
      var before, u := updates[..|updates| - 1], updates[|updates| - 1];
      if u.ClearReply? || u.ClearParts? then ""
      else if u.ToolCall? && u.id == id then Kept(LatestStatus(before, id), u.status)
      else LatestStatus(before, id)
  }

  ghost predicate Shows(parts: seq<Part>, updates: seq<Update>, id: string) {
    && (forall i :: 0 <= i < |parts| && IsTool(parts[i], id) ==>
          parts[i] == Tool(id, LatestTitle(updates, id), LatestStatus(updates, id)))
    && ((forall i :: 0 <= i < |parts| ==> !IsTool(parts[i], id)) ==>
          LatestTitle(updates, id) == "" && LatestStatus(updates, id) == "")
  }

  /** An update that is not about the call leaves what it shows. */
  lemma OtherUpdateShows(r: Reply, before: seq<Update>, u: Update, id: string)
    requires id != "" && Shows(r.parts, before, id)
    requires !u.ClearReply? && !u.ClearParts? && !(u.ToolCall? && u.id == id)
    ensures Shows(Apply(r, u).parts, before + [u], id)
  {
    assert (before + [u])[..|before|] == before;
    UpdatesKeepOrder(r, u);
    var parts := Apply(r, u).parts;
    assert forall i :: 0 <= i < |r.parts| ==> (IsTool(r.parts[i], id) <==> IsTool(parts[i], id));
    assert forall i :: 0 <= i < |r.parts| && IsTool(r.parts[i], id) ==> parts[i] == r.parts[i];
    assert |parts| > |r.parts| ==> !IsTool(parts[|r.parts|], id);
  }

  /** A tool part shows the latest title and status the agent gave its call, empty ones aside. */
  lemma {:induction false} ToolShowsLatest(updates: seq<Update>, id: string)
    requires id != ""
    ensures Shows(After(updates).parts, updates, id)
  {
    hide WellShaped, ToolPushed, TextPushed, IsTool, Shows;
    if updates == [] {
      NothingShows(updates, id);
    } else {
      var before, u := updates[..|updates| - 1], updates[|updates| - 1];
      assert updates == before + [u];
      ToolShowsLatest(before, id);
      StreamIsWellShaped(before);
      if u.ClearReply? || u.ClearParts? {
        NothingShows(updates, id);
      } else if u.ToolCall? && u.id == id {
        ToolUpdateShows(After(before).parts, before, u);
      } else {
        OtherUpdateShows(After(before), before, u, id);
      }
    }
  }

  lemma NothingShows(updates: seq<Update>, id: string)
    requires updates == [] || updates[|updates| - 1].ClearReply? || updates[|updates| - 1].ClearParts?
    ensures Shows([], updates, id)
  {
  }

  lemma ToolUpdateShows(parts: seq<Part>, before: seq<Update>, u: Update)
    requires u.ToolCall? && u.id != "" && WellShaped(parts) && Shows(parts, before, u.id)
    ensures Shows(ToolPushed(parts, u.id, u.title, u.status), before + [u], u.id)
  {
    assert (before + [u])[..|before|] == before;
    var at := FindTool(parts, u.id);
    var pushed := ToolPushed(parts, u.id, u.title, u.status);
    assert IsTool(pushed[if at.Some? then at.value else |parts|], u.id);
    if at.Some? {
      assert forall i :: 0 <= i < |parts| && IsTool(parts[i], u.id) ==> i == at.value;
    }
  }
}
