/** The admin exchanges of a recovery: which answers of the script they take, and
    which of them is to blame for the result. */
module RecoveryMoves {
  import opened RingTypes
  import opened IoRings
  import opened RecoveryPlan

  // ---- exchanges inside a recovery ----

  /** The k-th answer of a script, and what is left after k answers. */
  function At(script: seq<Answer>, k: nat): Answer {
    if k < |script| then script[k] else Silent
  }

  function Rest(script: seq<Answer>, k: nat): seq<Answer> {
    if k <= |script| then script[k..] else []
  }

  /** Every command was answered. */
  ghost predicate AllAnswered(xs: seq<Exchange>) {
    forall i :: 0 <= i < |xs| ==> !xs[i].answer.Silent?
  }

  /** Only commands whose errors are ignored were not answered. */
  ghost predicate OnlyIgnoredSilent(xs: seq<Exchange>) {
    forall i :: 0 <= i < |xs| && xs[i].answer.Silent? ==> Ignored(xs[i].op)
  }

  ghost predicate FromScript(xs: seq<Exchange>, script: seq<Answer>) {
    forall i :: 0 <= i < |xs| ==> xs[i].answer == At(script, i)
  }

  // ---- failed commands ----

  /** A command the driver relies on failed: it was not answered, was refused, or
      a new queue has its registers outside the device memory. */
  predicate Fails(x: Exchange) {
    && !Ignored(x.op) && !x.op.DestroyCq? && !x.op.DestroySq?
    && (x.answer.Silent? || x.answer.status != 0 || ((x.op.CreateCq? || x.op.CreateSq?) && x.answer.word != 0))
  }

  /** The error the driver makes of it. */
  function ErrorOf(x: Exchange): int {
    match x.answer
    case Silent => -ETIMEDOUT
    case Reply(status, _) => if status != 0 then 0 - status else -EINVAL
  }

  /** The position of the first failed command, the length if there is none. */
  function FirstFail(xs: seq<Exchange>): (i: nat)
    ensures i <= |xs|
    ensures i < |xs| ==> Fails(xs[i])
    ensures forall k :: 0 <= k < i ==> !Fails(xs[k])
  {
    if xs == [] || Fails(xs[0]) then 0 else 1 + FirstFail(xs[1..])
  }

  lemma FirstFailJoin(x: seq<Exchange>, y: seq<Exchange>)
    ensures FirstFail(x + y) == if FirstFail(x) < |x| then FirstFail(x) else |x| + FirstFail(y)
  {
    var z, i, k := x + y, FirstFail(x), FirstFail(y);
    assert forall n :: 0 <= n < |x| ==> z[n] == x[n];
    assert forall n :: 0 <= n < |y| ==> z[|x| + n] == y[n];
  }

  /** Errors the driver reports without a command: a setting out of range or a
      missing buffer, an unsupported feature, no memory, and, after a command
      that was not answered, no device. */
  predicate Local(ret: int, lost: bool) {
    ret == -EINVAL || ret == -EOPNOTSUPP || ret == -ENOMEM || (ret == -ENODEV && lost)
  }

  /** A result of 0 means that no command failed and only one whose errors are
      ignored can have gone unanswered. Any other result is the error of the
      first failed command, or one reported without a command. */
  ghost predicate Blamed(xs: seq<Exchange>, ret: int, lost: bool) {
    var i := FirstFail(xs);
    if ret == 0 then i == |xs| && OnlyIgnoredSilent(xs)
    else (i < |xs| && ret == ErrorOf(xs[i])) || Local(ret, lost || !AllAnswered(xs))
  }

  /** The exchanges between a and b, when nothing resets the device: they take
      the script in order, stop at the first command that is not answered, and
      that one moves the adapter to Error. */
  ghost predicate Flows(a: Adm, b: Adm) {
    && a.sent <= b.sent && b.up == a.up
    && (var more := b.sent[|a.sent|..];
        && FromScript(more, a.script) && b.script == Rest(a.script, |more|)
        && (a.state == Error ==> more == [] && b.state == Error)
        && (a.state != Error ==> b.state == if AllAnswered(more) then a.state else Error))
  }

  ghost predicate Moves(a: Adm, b: Adm, ret: int) {
    Flows(a, b) && Blamed(b.sent[|a.sent|..], ret, a.state == Error)
  }

  lemma MovesNowhere(a: Adm, b: Adm, ret: int)
    requires b == a.(mtu := b.mtu, features := b.features, groups := b.groups, rss := b.rss, tableMemory := b.tableMemory)
    requires ret == 0 || Local(ret, a.state == Error)
    ensures Moves(a, b, ret)
  {
    assert b.sent[|a.sent|..] == [];
  }

  lemma FlowsOn(a: Adm, b: Adm, c: Adm)
    requires Flows(a, b) && Flows(b, c)
    ensures Flows(a, c) && c.sent[|a.sent|..] == b.sent[|a.sent|..] + c.sent[|b.sent|..]
  {
    hide AllAnswered, FromScript, Rest;
    var x, y := b.sent[|a.sent|..], c.sent[|b.sent|..];
    assert c.sent[|a.sent|..] == x + y;
    JoinAnswers(x, y);
    JoinScript(x, y, a.script);
  }

  lemma MovesOn(a: Adm, b: Adm, c: Adm, r1: int, r2: int)
    requires Moves(a, b, r1) && Moves(b, c, r2)
    ensures Moves(a, c, if r1 != 0 then r1 else r2)
  {
    hide AllAnswered, OnlyIgnoredSilent, FromScript, Rest, FirstFail, ErrorOf;
    var x, y := b.sent[|a.sent|..], c.sent[|b.sent|..];
    FlowsOn(a, b, c);
    JoinAnswers(x, y);
    FirstFailJoin(x, y);
    FailAt(x, y);
  }

  lemma FailAt(x: seq<Exchange>, y: seq<Exchange>)
    ensures FirstFail(x) < |x| ==> (x + y)[FirstFail(x)] == x[FirstFail(x)]
    ensures FirstFail(y) < |y| ==> (x + y)[|x| + FirstFail(y)] == y[FirstFail(y)]
  {
  }

  /** After an error, commands that undo what was done change neither the error
      nor its cause. */
  lemma MovesUndo(a: Adm, b: Adm, c: Adm, r: int)
    requires Moves(a, b, r) && r != 0 && Flows(b, c)
    requires FirstFail(c.sent[|b.sent|..]) == |c.sent[|b.sent|..]|
    ensures Moves(a, c, r)
  {
    hide AllAnswered, OnlyIgnoredSilent, FromScript, Rest, FirstFail, ErrorOf;
    var x, y := b.sent[|a.sent|..], c.sent[|b.sent|..];
    FlowsOn(a, b, c);
    JoinAnswers(x, y);
    FirstFailJoin(x, y);
    FailAt(x, y);
  }

  lemma JoinAnswers(x: seq<Exchange>, y: seq<Exchange>)
    ensures AllAnswered(x + y) <==> AllAnswered(x) && AllAnswered(y)
    ensures OnlyIgnoredSilent(x + y) <==> OnlyIgnoredSilent(x) && OnlyIgnoredSilent(y)
    ensures AllAnswered([])
  {
    var z := x + y;
    assert forall i :: 0 <= i < |x| ==> z[i] == x[i];
    assert forall i :: 0 <= i < |y| ==> z[|x| + i] == y[i];
  }

  lemma JoinScript(x: seq<Exchange>, y: seq<Exchange>, script: seq<Answer>)
    ensures FromScript(x, script) && FromScript(y, Rest(script, |x|)) ==> FromScript(x + y, script)
    ensures Rest(Rest(script, |x|), |y|) == Rest(script, |x + y|)
  {
  }

  /** A step whose result is ignored still moves as one with result 0. */
  lemma MovesIgnored(a: Adm, b: Adm, c: Adm, r: int)
    requires Moves(a, b, 0) && Moves(b, c, r)
    ensures Moves(a, c, r)
  {
    MovesOn(a, b, c, 0, r);
  }

  // ---- every step, inside a recovery ----

  /** The result of a command, with a new queue out of reach as an error. */
  function Effective(op: Op, r: int, word: nat): int {
    if r == 0 && (op.CreateCq? || op.CreateSq?) && word != 0 then -EINVAL else r
  }

  lemma ExecMoves(w: World, op: Op)
    requires Ok(w) && w.active
    ensures var (v, r, word) := Exec(w, op);
            && (Ignored(op) ==> Moves(w.adm, v.adm, 0))
            && (!Ignored(op) && !op.DestroyCq? && !op.DestroySq? ==> Moves(w.adm, v.adm, Effective(op, r, word)))
            && (op.DestroyCq? || op.DestroySq? ==> Flows(w.adm, v.adm) && NoFail(w.adm, v.adm))
  {
    hide RingsOk, Moves, Ask, Flows, NoFail;
    var (v, r, word) := Exec(w, op);
    if w.adm.up && w.adm.state != Error {
      AskMoves(w.adm, op);
    } else {
      MovesNowhere(w.adm, v.adm, r);
      MovesNowhere(w.adm, v.adm, 0);
      MovesParts(w.adm, v.adm);
    }
  }

  ghost predicate NoFail(a: Adm, b: Adm) {
    a.sent <= b.sent && FirstFail(b.sent[|a.sent|..]) == |b.sent| - |a.sent|
  }

  lemma MovesParts(a: Adm, b: Adm)
    requires Moves(a, b, 0)
    ensures Flows(a, b) && NoFail(a, b)
  {
  }

  lemma AskMoves(a: Adm, op: Op)
    requires a.state != Error
    ensures var (b, r, word) := Ask(a, op);
            && (Ignored(op) ==> Moves(a, b, 0))
            && (!Ignored(op) && !op.DestroyCq? && !op.DestroySq? ==> Moves(a, b, Effective(op, r, word)))
            && (op.DestroyCq? || op.DestroySq? ==> Flows(a, b) && NoFail(a, b))
  {
    var b := Ask(a, op).0;
    assert b.sent[|a.sent|..] == [Exchange(op, At(a.script, 0))];
    assert b.script == Rest(a.script, 1);
  }

  lemma CreateMoves(w: World)
    requires Ok(w) && w.active
    ensures Moves(w.adm, Create(w).0.adm, Create(w).1)
  {
    hide RingsOk, Exec, AddSq, Moves, Flows;
    var (cq, r, bad) := Exec(w, CreateCq);
    ExecMoves(w, CreateCq);
    if r == 0 {
      if bad != 0 {
        ExecMoves(cq, DestroyCq);
        MovesUndo(w.adm, cq.adm, Exec(cq, DestroyCq).0.adm, -EINVAL);
      } else {
        AddSqMoves(cq);
        MovesIgnored(w.adm, cq.adm, AddSq(cq).0.adm, AddSq(cq).1);
      }
    }
  }

  lemma AddSqMoves(w: World)
    requires Ok(w) && w.active
    ensures Moves(w.adm, AddSq(w).0.adm, AddSq(w).1)
  {
    hide RingsOk, Exec, Moves, Flows;
    var (sq, r, bad) := Exec(w, CreateSq);
    ExecMoves(w, CreateSq);
    if r != 0 {
      ExecMoves(sq, DestroyCq);
      MovesUndo(w.adm, sq.adm, Exec(sq, DestroyCq).0.adm, r);
    } else if bad != 0 {
      var undone := Exec(sq, DestroySq).0;
      ExecMoves(sq, DestroySq);
      ExecMoves(undone, DestroyCq);
      MovesUndo(w.adm, sq.adm, undone.adm, -EINVAL);
      MovesUndo(w.adm, undone.adm, Exec(undone, DestroyCq).0.adm, -EINVAL);
    }
  }

  lemma {:induction false} TxLoopMoves(w: World, q: nat)
    requires Ok(w) && w.active && q <= |w.tx|
    ensures var (v, seen) := TxLoop(w, q); Moves(w.adm, v.adm, FirstError(seen))
  {
    hide RingsOk, Create, Moves, FirstError, LiveTx;
    if q == 0 {
      FirstErrorZero([]);
      MovesNowhere(w.adm, w.adm, FirstError([]));
    } else {
      var (v, seen) := TxLoop(w, q - 1);
      TxLoopMoves(w, q - 1);
      CreateMoves(v);
      MovesOn(w.adm, v.adm, Create(v).0.adm, FirstError(seen), Create(v).1);
      FirstErrorPush(seen, Create(v).1);
    }
  }

  lemma {:induction false} RxLoopMoves(w: World, q: nat)
    requires Ok(w) && w.active && q <= |w.rx|
    ensures var (v, seen) := RxLoop(w, q); Moves(w.adm, v.adm, FirstError(seen))
  {
    hide RingsOk, Create, Moves, FirstError, ReviveRx;
    if q == 0 {
      FirstErrorZero([]);
      MovesNowhere(w.adm, w.adm, FirstError([]));
    } else {
      var (v, seen) := RxLoop(w, q - 1);
      RxLoopMoves(w, q - 1);
      CreateMoves(v);
      MovesOn(w.adm, v.adm, Create(v).0.adm, FirstError(seen), Create(v).1);
      FirstErrorPush(seen, Create(v).1);
    }
  }

  lemma AttributesMove(w: World)
    requires Ok(w) && w.active
    ensures Moves(w.adm, ReadAttributes(w).0.adm, ReadAttributes(w).1)
  {
    hide RingsOk, Exec, Moves;
    var (v, r, _) := Exec(w, GetAttributes);
    ExecMoves(w, GetAttributes);
    MovesNowhere(v.adm, ReadAttributes(w).0.adm, 0);
    MovesOn(w.adm, v.adm, ReadAttributes(w).0.adm, r, 0);
  }

  lemma MtuMoves(w: World)
    requires Ok(w) && w.active
    ensures Moves(w.adm, ApplyMtu(w).0.adm, ApplyMtu(w).1)
  {
    hide RingsOk, Exec, Moves;
    var (v, r, _) := Exec(w, SetMtu);
    MovesNowhere(w.adm, w.adm, -EINVAL);
    ExecMoves(w, SetMtu);
    MovesNowhere(v.adm, v.adm.(mtu := w.adm.mtu), 0);
    MovesOn(w.adm, v.adm, v.adm.(mtu := w.adm.mtu), r, 0);
  }

  lemma AenqMoves(w: World)
    requires Ok(w) && w.active
    ensures Moves(w.adm, ApplyAenq(w).adm, 0)
  {
    hide RingsOk, Exec, Moves, Bit;
    MovesNowhere(w.adm, w.adm, 0);
    var (v, r, word) := Exec(w, GetAenq);
    ExecMoves(w, GetAenq);
    var u := Exec(v, SetAenq).0;
    ExecMoves(v, SetAenq);
    MovesOn(w.adm, v.adm, u.adm, 0, 0);
    MovesNowhere(u.adm, u.adm.(groups := word % 0x20), 0);
    MovesOn(w.adm, u.adm, u.adm.(groups := word % 0x20), 0, 0);
  }

  lemma OptionalMoves(w: World, supported: bool, buffer: bool, op: Op)
    requires Ok(w) && w.active
    requires op.SetRssKey? || op.SetRssInput? || op.SetRssTable?
    ensures var (v, r) := Optional(w, supported, buffer, op); Moves(w.adm, v.adm, r)
  {
    hide RingsOk, Exec, Moves;
    ExecMoves(w, op);
    MovesNowhere(w.adm, w.adm, 0);
    MovesNowhere(w.adm, w.adm, -EINVAL);
  }

  lemma InitRssMoves(w: World)
    requires Ok(w) && w.active
    ensures Moves(w.adm, InitRss(w).0.adm, InitRss(w).1)
  {
    hide RingsOk, Exec, Moves, Bit;
    var (u, r) := InitRss(w);
    MovesNowhere(w.adm, w.adm, 0);
    MovesNowhere(w.adm, w.adm, -EOPNOTSUPP);
    if Bit(w.adm.features, 12) && !w.adm.rss.Tables? {
      var v := if |w.rx| < 2 then w else Exec(w, GetRssLimits).0;
      ExecMoves(w, GetRssLimits);
      MovesNowhere(v.adm, u.adm, r);
      MovesIgnored(w.adm, v.adm, u.adm, r);
    }
  }

  lemma HashMoves(w: World)
    requires Ok(w) && w.active
    ensures Moves(w.adm, SendHash(w).0.adm, SendHash(w).1)
  {
    hide RingsOk, Moves, Bit, Optional;
    var key, haveKey := Bit(w.adm.features, 10), w.adm.rss.Tables? && w.adm.rss.key;
    var (v, r) := Optional(w, key, haveKey, SetRssKey);
    OptionalMoves(w, key, haveKey, SetRssKey);
    if r == 0 {
      var input, haveInput := Bit(v.adm.features, 18), v.adm.rss.Tables? && v.adm.rss.input;
      OptionalMoves(v, input, haveInput, SetRssInput);
      MovesIgnored(w.adm, v.adm, SendHash(w).0.adm, SendHash(w).1);
    }
  }

  lemma TableMoves(w: World)
    requires Ok(w) && w.active
    ensures Moves(w.adm, SendTable(w).0.adm, SendTable(w).1)
  {
    hide RingsOk, Exec, Moves, Optional;
    var (v, r) := Optional(w, true, w.adm.rss.Tables?, SetRssTable);
    OptionalMoves(w, true, w.adm.rss.Tables?, SetRssTable);
    ExecMoves(v, ReadRssTable);
    if r == 0 { MovesIgnored(w.adm, v.adm, Exec(v, ReadRssTable).0.adm, 0); }
  }

  lemma RssMoves(w: World)
    requires Ok(w) && w.active
    ensures Moves(w.adm, ApplyRss(w).0.adm, ApplyRss(w).1)
  {
    hide RingsOk, Moves, InitRss, SendHash, SendTable;
    var (a, r) := InitRss(w);
    InitRssMoves(w);
    if r == 0 {
      var (b, r) := SendHash(a);
      HashMoves(a);
      MovesIgnored(w.adm, a.adm, b.adm, r);
      if r == 0 {
        TableMoves(b);
        MovesIgnored(w.adm, b.adm, SendTable(b).0.adm, SendTable(b).1);
      }
    }
  }

  lemma FeaturesMove(w: World)
    requires Ok(w) && w.active
    ensures Moves(w.adm, Features(w).0.adm, FirstError(Features(w).1))
  {
    hide RingsOk, Moves, FirstError, ReadAttributes, ApplyMtu, ApplyAenq, ApplyRss;
    var (a, r0) := ReadAttributes(w);
    var (b, r1) := if a.adm.mtu == 0 then (a, []) else var (v, r) := ApplyMtu(a); (v, [r]);
    var (c, r2) := if b.adm.groups == 0 then (b, []) else (ApplyAenq(b), [0]);
    var (d, r3) := if |c.rx| <= 1 then (c, []) else var (v, r) := ApplyRss(c); (v, [r]);
    AttributesMove(w);
    FirstErrorOne(r0);
    OneStep(w, a, b, [r0], r1) by {
      MtuMoves(a);
      FirstErrorOne(ApplyMtu(a).1);
      FirstErrorZero([]);
      MovesNowhere(a.adm, a.adm, FirstError([]));
    }
    OneStep(w, b, c, [r0] + r1, r2) by {
      AenqMoves(b);
      FirstErrorOne(0);
      FirstErrorZero([]);
      MovesNowhere(b.adm, b.adm, FirstError([]));
    }
    OneStep(w, c, d, [r0] + r1 + r2, r3) by {
      RssMoves(c);
      FirstErrorOne(ApplyRss(c).1);
      FirstErrorZero([]);
      MovesNowhere(c.adm, c.adm, FirstError([]));
    }
  }

  /** Appending the results of a step appends its exchanges. */
  lemma OneStep(w: World, a: World, b: World, seen: seq<int>, next: seq<int>)
    requires Moves(w.adm, a.adm, FirstError(seen)) && Moves(a.adm, b.adm, FirstError(next))
    ensures Moves(w.adm, b.adm, FirstError(seen + next))
  {
    FirstErrorJoin(seen, next);
    MovesOn(w.adm, a.adm, b.adm, FirstError(seen), FirstError(next));
  }

  lemma RingsMove(w: World)
    requires Ok(w) && w.active
    ensures Moves(w.adm, RecoverRings(w).0.adm, FirstError(RecoverRings(w).1))
  {
    hide RingsOk, Moves, FirstError, TxLoop, RxLoop, Features;
    var (a, txs) := TxLoop(w, |w.tx|);
    var (b, rxs) := RxLoop(a, |a.rx|);
    TxLoopMoves(w, |w.tx|);
    RxLoopMoves(a, |a.rx|);
    OneStep(w, a, b, txs, rxs);
    FeaturesMove(b);
    OneStep(w, b, Features(b).0, txs + rxs, Features(b).1);
  }
}
