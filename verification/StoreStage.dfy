/**
 * What a handle has staged, told from the operations of a run and the answers to them alone: each staged payload is
 * sealed by at most one commit that reports OK, and a commit with nothing staged since the last one changes nothing.
 */
module StoreStage {
  import opened Bytes
  import opened Options
  import opened StoreFormat
  import opened StoreScan
  import opened StoreOps
  import opened StoreRuns
  import opened StoreSafety

  /** An operation and what its caller was told. */
  datatype Told = Told(op: Op, status: Status)

  /** The world after the first n operations of a run. */
  function WorldAt(H: Hash, ops: seq<Op>, n: nat): World
    requires n <= |ops|
  {
    Exec(H, Empty(), ops[..n])
  }

  function Transcript(H: Hash, ops: seq<Op>): (r: seq<Told>)
    ensures |r| == |ops|
    ensures forall k :: 0 <= k < |ops| ==> r[k] == Told(ops[k], StatusOf(H, WorldAt(H, ops, k), ops[k]))
  {
    seq(|ops|, k requires 0 <= k < |ops| => Told(ops[k], StatusOf(H, WorldAt(H, ops, k), ops[k])))
  }

  predicate OkCommit(x: Told, id: nat) {
    x.op.DoCommit? && x.op.id == id && x.status == Ok
  }

  predicate Stages(x: Told, id: nat) {
    x.op.DoStage? && x.op.id == id
  }

  /**
   * Which operations staged what this handle has now, after n of them: those since it was opened, last rolled back,
   * or last committed with OK. There is none while the handle is not open.
   */
  function StagedBy(tr: seq<Told>, n: nat, id: nat): Option<seq<nat>>
    requires n <= |tr|
  {
    if n == 0 then None
    else
      var x, before := tr[n - 1], StagedBy(tr, n - 1, id);
      if before == None then if x.op.DoOpen? && x.op.id == id && x.status == Ok then Some([]) else None
      else if x.op.Crash? || (x.op.DoClose? && x.op.id == id) then None
      else if OkCommit(x, id) || (x.op.DoRollback? && x.op.id == id) then Some([])
      else if Stages(x, id) then Some(before.value + [n - 1])
      else before
  }

  predicate StagingOps(tr: seq<Told>, at: seq<nat>, id: nat) {
    forall k :: 0 <= k < |at| ==> at[k] < |tr| && Stages(tr[at[k]], id)
  }

  function PayloadsOf(tr: seq<Told>, at: seq<nat>, id: nat): (r: seq<Payload>)
    requires StagingOps(tr, at, id)
    ensures |r| == |at| && forall k :: 0 <= k < |at| ==> r[k] == tr[at[k]].op.payload
  {
    seq(|at|, k requires 0 <= k < |at| => tr[at[k]].op.payload)
  }

  /** They are stagings of this handle, in order, all behind its last commit that reported OK. */
  lemma {:induction false} StagedRecently(tr: seq<Told>, n: nat, id: nat)
    requires n <= |tr| && StagedBy(tr, n, id).Some?
    ensures var at := StagedBy(tr, n, id).value;
      && StagingOps(tr, at, id)
      && (forall k :: 0 <= k < |at| ==> at[k] < n)
      && (forall j, k :: 0 <= j < k < |at| ==> at[j] < at[k])
      && (forall i, k :: 0 <= i < n && OkCommit(tr[i], id) && 0 <= k < |at| ==> i < at[k])
    decreases n
  {
    if StagedBy(tr, n - 1, id).Some? {
      StagedRecently(tr, n - 1, id);
    }
  }

  lemma {:induction false} ExecSnoc(H: Hash, w: World, ops: seq<Op>, op: Op)
    ensures Exec(H, w, ops + [op]) == Apply(H, Exec(H, w, ops), op)
    decreases ops
  {
    hide Apply;
    if ops == [] {
      assert [op][1..] == [] && ops + [op] == [op];
    } else {
      ExecSnoc(H, Apply(H, w, ops[0]), ops[1..], op);
      assert (ops + [op])[1..] == ops[1..] + [op];
    }
  }

  lemma NextWorld(H: Hash, ops: seq<Op>, n: nat)
    requires n < |ops|
    ensures WorldAt(H, ops, n + 1) == Apply(H, WorldAt(H, ops, n), ops[n])
  {
    hide Apply, Exec;
    assert ops[..n + 1] == ops[..n] + [ops[n]];
    ExecSnoc(H, Empty(), ops[..n], ops[n]);
  }

  /** What one operation does to the stage of one handle. */
  lemma StageStep(H: Hash, w: World, op: Op, id: nat)
    ensures var v, ok := Apply(H, w, op), StatusOf(H, w, op) == Ok;
      && (id !in w.handles ==> (id in v.handles <==> op.DoOpen? && op.id == id && ok))
      && (id !in w.handles && id in v.handles ==> v.handles[id].staged == [])
      && (id in w.handles ==> (id in v.handles <==> !(op.Crash? || (op.DoClose? && op.id == id))))
      && (id in w.handles && id in v.handles ==>
            var before, after := w.handles[id].staged, v.handles[id].staged;
            if ((op.DoCommit? && ok) || op.DoRollback?) && op.id == id then after == []
            else if op.DoStage? && op.id == id then after == before + [op.payload]
            else after == before)
  {
    hide Scan, LoadPending, Activates, Recovered, Armed, HeadRecord, TxnBytes;
  }

  /**
   * Over every run: a handle's stage is exactly what was staged with it since it was opened, last rolled back, or last
   * committed with OK, in order.
   */
  lemma {:induction false} StageIsTold(H: Hash, ops: seq<Op>, n: nat, id: nat)
    requires n <= |ops|
    ensures var w, told := WorldAt(H, ops, n), StagedBy(Transcript(H, ops), n, id);
      && (id in w.handles <==> told.Some?)
      && (id in w.handles ==>
            && StagingOps(Transcript(H, ops), told.value, id)
            && w.handles[id].staged == PayloadsOf(Transcript(H, ops), told.value, id))
    decreases n
  {
    hide Apply, Exec, StatusOf;
    var tr := Transcript(H, ops);
    if n == 0 {
      NothingOpen(H, ops);
    } else {
      StageIsTold(H, ops, n - 1, id);
      NextWorld(H, ops, n - 1);
      StageStep(H, WorldAt(H, ops, n - 1), ops[n - 1], id);
      if StagedBy(tr, n, id).Some? {
        StagedRecently(tr, n, id);
      }
    }
  }

  lemma NothingOpen(H: Hash, ops: seq<Op>)
    ensures WorldAt(H, ops, 0) == Empty()
  {}

  /** No staging is sealed by two commits that report OK, whichever handles they are of. */
  lemma {:induction false} SealedOnce(H: Hash, ops: seq<Op>, i: nat, j: nat, id: nat, other: nat)
    requires i < j < |ops|
    requires OkCommit(Transcript(H, ops)[i], id) && OkCommit(Transcript(H, ops)[j], other)
    ensures var tr := Transcript(H, ops);
      && StagedBy(tr, i, id).Some? && StagedBy(tr, j, other).Some?
      && forall k :: k in StagedBy(tr, i, id).value ==> k !in StagedBy(tr, j, other).value
  {
    hide Exec, Apply, Commit, StagedBy;
    var tr := Transcript(H, ops);
    StageIsTold(H, ops, i, id);
    StageIsTold(H, ops, j, other);
    StagedRecently(tr, i, id);
    StagedRecently(tr, j, other);
  }

  /** A commit that reports OK extends the history by exactly what was staged, and leaves nothing staged. */
  lemma OkCommitSeals(H: Hash, ops: seq<Op>, i: nat, id: nat)
    requires i < |ops| && AdmissibleRun(H, Empty(), ops[..i]) && OkCommit(Transcript(H, ops)[i], id)
    ensures var tr := Transcript(H, ops);
      && StagedBy(tr, i, id).Some? && StagingOps(tr, StagedBy(tr, i, id).value, id)
      && var sealed := PayloadsOf(tr, StagedBy(tr, i, id).value, id);
      && sealed != [] && WorldAt(H, ops, i + 1).history == WorldAt(H, ops, i).history + [sealed]
      && StagedBy(tr, i + 1, id) == Some([])
  {
    hide Exec, Inv, AdmissibleRun, Scan, TxnBytes;
    var w := WorldAt(H, ops, i);
    StageIsTold(H, ops, i, id);
    NextWorld(H, ops, i);
    EmptyIsInv(H);
    RunKeeps(H, Empty(), ops[..i]);
    assert LogInv(H, w) by { InvHasLog(H, w); }
    CommitNeedsLog(H, w, id);
  }

  lemma EmptyIsInv(H: Hash)
    ensures Inv(H, Empty())
  {}

  lemma InvHasLog(H: Hash, w: World)
    requires Inv(H, w)
    ensures LogInv(H, w)
  {
    hide LogInv, FenceInv, PreparedInv;
  }

  lemma {:induction false} NothingSince(tr: seq<Told>, i: nat, n: nat, id: nat)
    requires i < n <= |tr| && OkCommit(tr[i], id) && forall k :: i < k < n ==> !Stages(tr[k], id)
    ensures StagedBy(tr, n, id) in {None, Some([])}
    decreases n
  {
    if n > i + 1 {
      NothingSince(tr, i, n - 1, id);
    }
  }

  /** With nothing staged since the last commit that reported OK another one is stale, and changes nothing at all. */
  lemma EmptyCommitIsStale(H: Hash, ops: seq<Op>, i: nat, j: nat, id: nat)
    requires i < j < |ops| && OkCommit(Transcript(H, ops)[i], id) && ops[j].DoCommit? && ops[j].id == id
    requires forall k :: i < k < j ==> !Stages(Transcript(H, ops)[k], id)
    ensures Transcript(H, ops)[j].status == Stale && WorldAt(H, ops, j + 1) == WorldAt(H, ops, j)
  {
    hide Exec, Scan, StagedBy, Append;
    var w := WorldAt(H, ops, j);
    StageIsTold(H, ops, j, id);
    NextWorld(H, ops, j);
    if id in w.handles {
      NothingSince(Transcript(H, ops), i, j, id);
      assert w.handles[id := w.handles[id]] == w.handles;
    }
  }
}
