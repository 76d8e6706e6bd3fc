/**
  Proposals from the public-horizon loop: attached, decided by a person, rolled
  back. The accepted note on disk is tied to the history of approvals.
 */
module Proposals {

  import opened Collections

  type Id = string

  /** The surface a proposal would change: the one that is allowed, a frozen one, or one not listed. */
  datatype Surface = ReferenceNote | Frozen | Unlisted
  datatype Status = Awaiting | Stopped | Rejected | Accepted | RolledBack
  datatype Action = Approve | Refuse | Unknown

  datatype Proposal = Proposal(kind: Surface, text: string, status: Status)
  datatype Note = Note(id: Id, text: string)
  datatype Root = Root(proposals: map<Id, Proposal>, accepted: Option<Note>)

  predicate Privileged(kind: Surface) {
    kind != ReferenceNote
  }

  predicate IsSpace(c: char) {
    c == ' ' || c == '\n' || c == '\t' || c == '\r'
  }

  function StripLeft(s: string): string {
    if |s| > 0 && IsSpace(s[0]) then StripLeft(s[1..]) else s
  }

  function StripRight(s: string): string {
    if |s| > 0 && IsSpace(s[|s| - 1]) then StripRight(s[..|s| - 1]) else s
  }

  function Strip(s: string): string {
    StripRight(StripLeft(s))
  }

  datatype Op =
    | Attach(id: Id, kind: Surface, found: bool, note: string)
    | Decide(id: Id, action: Action)
    | Rollback(id: Id)

  function Attached(kind: Surface, found: bool, note: string): Proposal {
    if Privileged(kind) then Proposal(kind, "", Stopped)
    else Proposal(kind, note, if found then Awaiting else Stopped)
  }

  predicate Approves(r: Root, op: Op) {
    && op.Decide? && op.action == Approve
    && op.id in r.proposals && r.proposals[op.id].status == Awaiting
    && !Privileged(r.proposals[op.id].kind)
    && Strip(r.proposals[op.id].text) != ""
  }

  function Step(r: Root, op: Op): Root {
    match op
    case Attach(id, kind, found, note) => r.(proposals := r.proposals[id := Attached(kind, found, note)])
    case Decide(id, action) =>
      if id !in r.proposals || r.proposals[id].status != Awaiting then r
      else
        var p := r.proposals[id];
        if Privileged(p.kind) then r.(proposals := r.proposals[id := p.(status := Stopped)])
        else if action == Refuse then r.(proposals := r.proposals[id := p.(status := Rejected)])
        else if Approves(r, op) then
          Root(r.proposals[id := p.(status := Accepted)], Some(Note(id, Strip(p.text))))
        else r
    case Rollback(id) =>
      if id !in r.proposals || r.proposals[id].status != Accepted then r
      else
        Root(r.proposals[id := r.proposals[id].(status := RolledBack)],
             if r.accepted.Some? && r.accepted.value.id == id then None else r.accepted)
  }

  const EMPTY := Root(map[], None)

  function Run(ops: seq<Op>): Root {
    if |ops| == 0 then EMPTY else Step(Run(ops[..|ops| - 1]), ops[|ops| - 1])
  }

  /** Proposal ids are drawn fresh. */
  predicate FreshIds(ops: seq<Op>) {
    |ops| == 0 ||
    (FreshIds(ops[..|ops| - 1]) && (ops[|ops| - 1].Attach? ==> ops[|ops| - 1].id !in Run(ops[..|ops| - 1]).proposals))
  }

  /** The proposal approved last, on the history alone. */
  function LastApproved(ops: seq<Op>): Option<Id> {
    if |ops| == 0 then None
    else if Approves(Run(ops[..|ops| - 1]), ops[|ops| - 1]) then Some(ops[|ops| - 1].id)
    else LastApproved(ops[..|ops| - 1])
  }

  /** What every reachable proposal satisfies: only the allowed surface waits, is accepted or is rolled back. */
  predicate Sound(r: Root) {
    forall id <- r.proposals ::
      var p := r.proposals[id];
      && (p.status != Stopped ==> p.kind == ReferenceNote)
      && (p.status in {Accepted, RolledBack} ==> Strip(p.text) != "")
  }

  /** The note on disk: the last approved proposal's text while that proposal is still accepted. */
  predicate NoteIs(r: Root, last: Option<Id>) {
    && (last.Some? ==> last.value in r.proposals && r.proposals[last.value].status in {Accepted, RolledBack})
    && r.accepted ==
         if last.Some? && last.value in r.proposals && r.proposals[last.value].status == Accepted
         then Some(Note(last.value, Strip(r.proposals[last.value].text)))
         else None
  }

  lemma {:induction false} StepKeeps(r: Root, op: Op, last: Option<Id>)
    requires Sound(r) && NoteIs(r, last)
    requires op.Attach? ==> op.id !in r.proposals
    ensures Sound(Step(r, op))
    ensures NoteIs(Step(r, op), if Approves(r, op) then Some(op.id) else last)
  {
    var q := Step(r, op);
    forall id <- q.proposals
      ensures q.proposals[id].status != Stopped ==> q.proposals[id].kind == ReferenceNote
      ensures q.proposals[id].status in {Accepted, RolledBack} ==> Strip(q.proposals[id].text) != ""
    {
      if id in r.proposals { assert r.proposals[id].status != Stopped ==> r.proposals[id].kind == ReferenceNote; }
    }
  }

  /**
    Over every run with fresh ids: the note exists exactly while the proposal
    approved last is still accepted, and then it is that proposal's text, stripped
    and not empty; nothing on a frozen or unlisted surface is ever accepted.
   */
  lemma {:induction false} RunKeeps(ops: seq<Op>)
    requires FreshIds(ops)
    ensures Sound(Run(ops)) && NoteIs(Run(ops), LastApproved(ops))
  {
    if |ops| > 0 {
      RunKeeps(ops[..|ops| - 1]);
      StepKeeps(Run(ops[..|ops| - 1]), ops[|ops| - 1], LastApproved(ops[..|ops| - 1]));
    }
  }

  /** Proposals waiting for confirmation are never privileged, so the second privilege check never fires. */
  lemma {:induction false} WaitingIsAllowed(ops: seq<Op>, id: Id)
    requires FreshIds(ops) && id in Run(ops).proposals && Run(ops).proposals[id].status in {Awaiting, Accepted}
    ensures !Privileged(Run(ops).proposals[id].kind)
  {
    RunKeeps(ops);
  }

  predicate FreshFrom(r: Root, more: seq<Op>) {
    |more| == 0 || (FreshFrom(r, more[..|more| - 1]) &&
                    (more[|more| - 1].Attach? ==> more[|more| - 1].id !in RunFrom(r, more[..|more| - 1]).proposals))
  }

  function RunFrom(r: Root, more: seq<Op>): Root {
    if |more| == 0 then r else Step(RunFrom(r, more[..|more| - 1]), more[|more| - 1])
  }

  /** A stopped, rejected or rolled-back proposal stays as it is through every later run. */
  lemma {:induction false} TerminalStays(r: Root, more: seq<Op>, id: Id)
    requires FreshFrom(r, more) && id in r.proposals && r.proposals[id].status in {Stopped, Rejected, RolledBack}
    ensures id in RunFrom(r, more).proposals && RunFrom(r, more).proposals[id] == r.proposals[id]
  {
    if |more| > 0 { TerminalStays(r, more[..|more| - 1], id); }
  }

  /** Exactly what a decision on a waiting proposal does. */
  lemma {:induction false} DecisionIs(r: Root, id: Id, action: Action, q: Root)
    requires id in r.proposals && r.proposals[id].status == Awaiting && r.proposals[id].kind == ReferenceNote
    requires q == Step(r, Decide(id, action))
    ensures action == Refuse ==>
              q.proposals == r.proposals[id := r.proposals[id].(status := Rejected)] && q.accepted == r.accepted
    ensures action == Approve && Strip(r.proposals[id].text) != "" ==>
              q.proposals == r.proposals[id := r.proposals[id].(status := Accepted)]
              && q.accepted == Some(Note(id, Strip(r.proposals[id].text)))
    ensures action == Unknown || (action == Approve && Strip(r.proposals[id].text) == "") ==> q == r
  {
  }

  /** A rollback marks an accepted proposal, withdraws the note if it is its own, and touches nothing else. */
  lemma {:induction false} RollbackWithdraws(r: Root, id: Id, q: Root)
    requires id in r.proposals && r.proposals[id].status == Accepted && q == Step(r, Rollback(id))
    ensures q.proposals == r.proposals[id := r.proposals[id].(status := RolledBack)]
    ensures q.accepted.Some? ==> q.accepted.value.id != id
    ensures r.accepted.Some? && r.accepted.value.id != id ==> q.accepted == r.accepted
  {
  }

  lemma {:induction false} RunsOn(ops: seq<Op>, more: seq<Op>)
    ensures Run(ops + more) == RunFrom(Run(ops), more)
    ensures FreshIds(ops + more) ==> FreshIds(ops) && FreshFrom(Run(ops), more)
  {
    if |more| == 0 {
      assert ops + more == ops;
    } else {
      assert (ops + more)[..|ops + more| - 1] == ops + more[..|more| - 1];
      RunsOn(ops, more[..|more| - 1]);
    }
  }

  lemma {:induction false} NoApprovalSince(h: seq<Op>, n: nat)
    requires n <= |h| && forall i :: n <= i < |h| ==> !Approves(Run(h[..i]), h[i])
    ensures LastApproved(h) == LastApproved(h[..n])
    decreases |h|
  {
    if n == |h| {
      assert h[..n] == h;
    } else {
      var g := h[..|h| - 1];
      forall i | n <= i < |g| ensures !Approves(Run(g[..i]), g[i]) {
        assert g[..i] == h[..i] && g[i] == h[i];
      }
      NoApprovalSince(g, n);
      assert g[..n] == h[..n];
    }
  }

  /**
    Over every run with fresh ids: once the proposal whose note is on disk has been
    rolled back, there is no note until a proposal is approved again.
   */
  lemma {:induction false} RolledBackIsGone(ops: seq<Op>, id: Id, more: seq<Op>)
    requires FreshIds(ops + [Rollback(id)] + more)
    requires Run(ops).accepted.Some? && Run(ops).accepted.value.id == id
    requires var h := ops + [Rollback(id)] + more;
      forall i :: |ops| < i < |h| ==> !Approves(Run(h[..i]), h[i])
    ensures Run(ops + [Rollback(id)] + more).accepted == None
    ensures id in Run(ops + [Rollback(id)] + more).proposals
    ensures Run(ops + [Rollback(id)] + more).proposals[id].status == RolledBack
  {
    var back := ops + [Rollback(id)];
    var h := back + more;
    RunsOn(back, more);
    RunsOn(ops, [Rollback(id)]);
    RunKeeps(ops);
    RunKeeps(h);
    assert back[..|ops|] == ops && Run(back) == Step(Run(ops), Rollback(id));
    RollbackWithdraws(Run(ops), id, Run(back));
    NoApprovalSince(h, |back|);
    assert h[..|back|] == back;
    assert !Approves(Run(ops), Rollback(id));
    TerminalStays(Run(back), more, id);
  }

  /** Stripping takes whitespace off both ends and nothing else. */
  lemma {:induction false} StripIs(s: string) returns (i: nat, j: nat)
    ensures i <= j <= |s| && Strip(s) == s[i..j]
    ensures forall k :: 0 <= k < i || j <= k < |s| ==> IsSpace(s[k])
    ensures i < j ==> !IsSpace(s[i]) && !IsSpace(s[j - 1])
  {
    i := LeftIs(s);
    var n := RightIs(s[i..]);
    j := i + n;
    assert s[i..][..n] == s[i..j];
    forall k | j <= k < |s| ensures IsSpace(s[k]) {
      assert s[i..][k - i] == s[k];
    }
    if i < j {
      assert s[i..][0] == s[i] && s[i..][n - 1] == s[j - 1];
    }
  }

  lemma {:induction false} SpacesAre(c: char)
    ensures IsSpace(c) <==> c in " \n\t\r"
  {
    assert " \n\t\r" == [' ', '\n', '\t', '\r'];
  }

  lemma {:induction false} LeftIs(s: string) returns (i: nat)
    ensures i <= |s| && StripLeft(s) == s[i..]
    ensures forall k :: 0 <= k < i ==> IsSpace(s[k])
    ensures i < |s| ==> !IsSpace(s[i])
  {
    i := 0;
    if |s| > 0 && IsSpace(s[0]) {
      var n := LeftIs(s[1..]);
      i := n + 1;
      assert s[1..][n..] == s[i..];
      forall k | 0 <= k < i ensures IsSpace(s[k]) {
        if k > 0 { assert s[1..][k - 1] == s[k]; }
      }
      if i < |s| { assert s[1..][n] == s[i]; }
    }
  }

  lemma {:induction false} RightIs(s: string) returns (j: nat)
    ensures j <= |s| && StripRight(s) == s[..j]
    ensures forall k :: j <= k < |s| ==> IsSpace(s[k])
    ensures j > 0 ==> !IsSpace(s[j - 1])
  {
    j := |s|;
    if |s| > 0 && IsSpace(s[|s| - 1]) {
      var init := s[..|s| - 1];
      j := RightIs(init);
      assert init[..j] == s[..j];
      forall k | j <= k < |s| ensures IsSpace(s[k]) {
        if k < |s| - 1 { assert init[k] == s[k]; }
      }
      if j > 0 { assert init[j - 1] == s[j - 1]; }
    }
  }

  lemma {:induction false} StripsClean(s: string)
    ensures StripLeft(s) == "" || !IsSpace(StripLeft(s)[0])
  {
    if |s| > 0 && IsSpace(s[0]) { StripsClean(s[1..]); }
  }

  lemma {:induction false} RightStripKeepsFront(s: string)
    ensures StripRight(s) == "" || (|s| > 0 && StripRight(s)[0] == s[0])
    ensures StripRight(StripRight(s)) == StripRight(s)
  {
    if |s| > 0 && IsSpace(s[|s| - 1]) { RightStripKeepsFront(s[..|s| - 1]); }
  }

  /** Reading the note strips it again, which changes nothing. */
  lemma {:induction false} StripTwice(s: string)
    ensures Strip(Strip(s)) == Strip(s)
  {
    StripsClean(s);
    RightStripKeepsFront(StripLeft(s));
  }

  // ---- the proposal directory and the accepted file, written in place

  class Directory {
    var proposals: map<Id, Proposal>
    var accepted: Option<Note>

    ghost function Contents(): Root
      reads this
    {
      Root(proposals, accepted)
    }

    constructor ()
      ensures Contents() == EMPTY
    {
      proposals, accepted := map[], None;
    }

    method AttachProposal(id: Id, kind: Surface, found: bool, note: string)
      modifies this
      ensures Contents() == Step(old(Contents()), Attach(id, kind, found, note))
      ensures accepted == old(accepted) && id in proposals && proposals - {id} == old(proposals) - {id}
      ensures proposals[id].kind == kind && proposals[id].text == if kind == ReferenceNote then note else ""
      ensures proposals[id].status == if kind == ReferenceNote && found then Awaiting else Stopped
    {
      var status := if Privileged(kind) then Stopped else if !found then Stopped else Awaiting;
      proposals := proposals[id := Proposal(kind, if Privileged(kind) then "" else note, status)];
    }

    method DecideProposal(id: Id, action: Action) returns (done: bool)
      modifies this
      ensures Contents() == Step(old(Contents()), Decide(id, action))
      ensures done ==> id in proposals && proposals[id].status == if action == Refuse then Rejected else Accepted
      ensures done && action != Refuse <==> Approves(old(Contents()), Decide(id, action))
      ensures done <==> id in old(proposals) && old(proposals)[id].status == Awaiting
                        && old(proposals)[id].kind == ReferenceNote
                        && (action == Refuse || (action == Approve && Strip(old(proposals)[id].text) != ""))
      ensures done && action == Approve ==> accepted == Some(Note(id, Strip(proposals[id].text)))
      ensures !(done && action == Approve) ==> accepted == old(accepted)
      ensures proposals - {id} == old(proposals) - {id}
      ensures var p := old(proposals);
        id in p && p[id].status == Awaiting && p[id].kind != ReferenceNote ==>
          !done && proposals == p[id := p[id].(status := Stopped)]
      ensures done ==> proposals[id].text == old(proposals)[id].text && proposals[id].kind == old(proposals)[id].kind
      ensures var p := old(proposals);
        !done && !(id in p && p[id].status == Awaiting && p[id].kind != ReferenceNote) ==> proposals == p
    {
      if id !in proposals || proposals[id].status != Awaiting {
        return false;
      }
      var p := proposals[id];
      if Privileged(p.kind) {
        proposals := proposals[id := p.(status := Stopped)];
        return false;
      }
      if action == Refuse {
        proposals := proposals[id := p.(status := Rejected)];
        return true;
      }
      if action != Approve {
        return false;
      }
      var text := Strip(p.text);
      if text == "" {
        return false;
      }
      proposals := proposals[id := p.(status := Accepted)];
      accepted := Some(Note(id, text));
      done := true;
    }

    method RollbackProposal(id: Id) returns (done: bool)
      modifies this
      ensures Contents() == Step(old(Contents()), Rollback(id))
      ensures done <==> id in old(proposals) && old(proposals)[id].status == Accepted
      ensures done ==> id in proposals && proposals[id] == old(proposals)[id].(status := RolledBack)
      ensures done ==> accepted == (if old(accepted).Some? && old(accepted).value.id == id then None else old(accepted))
      ensures done ==> (accepted.Some? ==> accepted.value.id != id)
      ensures proposals - {id} == old(proposals) - {id}
      ensures !done ==> proposals == old(proposals) && accepted == old(accepted)
    {
      if id !in proposals || proposals[id].status != Accepted {
        return false;
      }
      if accepted.Some? && accepted.value.id == id {
        accepted := None;
      }
      proposals := proposals[id := proposals[id].(status := RolledBack)];
      done := true;
    }

    method AcceptedNote() returns (text: string)
      ensures text == if accepted.Some? then Strip(accepted.value.text) else ""
    {
      text := if accepted.Some? then Strip(accepted.value.text) else "";
    }
  }
}
