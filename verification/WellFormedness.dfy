/** The LLVM verifier demands that every block ends in its only terminator.  Emission does not enforce
    it; this is exactly when it holds. */
module WellFormedness {
  import opened Syntax
  import opened Ir
  import opened Codegen
  import opened Layout

  predicate Jumps(s: Stmt) {
    s.ReturnStmt? || s.BreakStmt? || s.CycleStmt?
  }

  predicate EndsInJump(stmts: seq<Stmt>) {
    |stmts| > 0 && Jumps(stmts[|stmts| - 1])
  }

  /** Nothing follows a jump in its block, and no loop body ends in one. */
  predicate Tidy(stmts: seq<Stmt>)
    decreases stmts
  {
    stmts == []
    || (TidyStmt(stmts[0]) && (|stmts| > 1 ==> !Jumps(stmts[0])) && Tidy(stmts[1..]))
  }

  predicate TidyStmt(s: Stmt)
    decreases s
  {
    match s
    case IfStmt(link) => TidyLink(link)
    case LoopStmt(body) => Tidy(body) && !EndsInJump(body)
    case _ => true
  }

  predicate TidyLink(link: IfLink)
    decreases link
  {
    && Tidy(link.thn)
    && match link.els
       case NoElse => true
       case ElseBlock(stmts) => Tidy(stmts)
       case ElseIfLink(next) => TidyLink(next)
  }

  predicate TidyFunction(body: seq<Stmt>) {
    Tidy(body) && body != [] && body[|body| - 1].ReturnStmt?
  }

  /** One terminator, at the end. */
  predicate Complete(b: Block) {
    Terminated(b) && Open(b[..|b| - 1])
  }

  /** No terminator yet. */
  predicate Open(b: Block) {
    forall k | 0 <= k < |b| :: !IsTerminator(b[k])
  }

  /** A terminator that is not the last instruction: nothing appended later can mend this. */
  ghost predicate Broken(b: Block) {
    exists k | 0 <= k < |b| - 1 :: IsTerminator(b[k])
  }

  predicate WellFormed(blocks: seq<Block>) {
    forall i | 0 <= i < |blocks| :: Complete(blocks[i])
  }

  ghost predicate HasBroken(blocks: seq<Block>) {
    exists i | 0 <= i < |blocks| :: Broken(blocks[i])
  }

  /** From an open block at b: every block touched or made since is complete but the current one, which
      is complete after a jump and open otherwise. */
  ghost predicate Shape(b: Builder, b': Builder, jumped: bool)
    requires b.Valid() && b'.Valid()
  {
    && (if jumped then Complete(b'.Here()) else Open(b'.Here()))
    && forall i | 0 <= i < |b'.blocks| && (i == b.cur || i >= |b.blocks|) && i != b'.cur :: Complete(b'.blocks[i])
  }

  lemma BrokenStays(part: seq<Block>, all: seq<Block>)
    requires HasBroken(part) && Extends(part, all)
    ensures HasBroken(all)
  {
    var i :| 0 <= i < |part| && Broken(part[i]);
    assert Prefix(part[i], all[i]);
    var k :| 0 <= k < |part[i]| - 1 && IsTerminator(part[i][k]);
    assert IsTerminator(all[i][k]);
    assert Broken(all[i]);
  }

  lemma NotBoth(blocks: seq<Block>)
    requires WellFormed(blocks)
    ensures !HasBroken(blocks)
  {
    if i :| 0 <= i < |blocks| && Broken(blocks[i]) {
      var b := blocks[i];
      assert Complete(b);
      var k :| 0 <= k < |b| - 1 && IsTerminator(b[k]);
      assert b[..|b| - 1][k] == b[k];
    }
  }

  lemma {:induction false} ExprStaysOpen(known: set<string>, b: Builder, e: Expr)
    requires b.Valid() && EmitExpr(known, b, e).Ok? && Open(b.Here())
    ensures Open(EmitExpr(known, b, e).value.0.Here())
    ensures forall i | 0 <= i < |b.blocks| && i != b.cur :: EmitExpr(known, b, e).value.0.blocks[i] == b.blocks[i]
    decreases e
  {
    if e.Binary? {
      ExprStaysOpen(known, b, e.lhs);
      ExprStaysOpen(known, EmitExpr(known, b, e.lhs).value.0, e.rhs);
    }
  }

  /** Every statement adds to the block at the insertion point; after a jump that breaks the block. */
  lemma {:induction false} StmtAppends(known: set<string>, b: Builder, s: Stmt)
    requires b.Valid() && EmitStmt(known, b, s).Ok?
    ensures |EmitStmt(known, b, s).value.blocks[b.cur]| > |b.blocks[b.cur]|
  {
    match s
    case IfStmt(link) =>
      var c := EmitExpr(known, b, link.cond).value;
      ExprGrows(known, b, link.cond);
      assert Prefix(b.blocks[b.cur], c.0.blocks[b.cur]);
      LinkAppends(known, b, link);
    case LoopStmt(body) =>
      BlockGrows(known, b.OpenLoop(), body);
      assert Prefix(b.OpenLoop().blocks[b.cur], EmitBlock(known, b.OpenLoop(), body).value.blocks[b.cur]);
    case DeclStmt(_, _, value, _) =>
      ExprGrows(known, b, value);
      assert Prefix(b.blocks[b.cur], EmitExpr(known, b, value).value.0.blocks[b.cur]);
    case AssignStmt(_, value) =>
      ExprGrows(known, b, value);
      assert Prefix(b.blocks[b.cur], EmitExpr(known, b, value).value.0.blocks[b.cur]);
    case ShowStmt(expr, _) =>
      ExprGrows(known, b, expr);
      assert Prefix(b.blocks[b.cur], EmitExpr(known, b, expr).value.0.blocks[b.cur]);
    case ReturnStmt(expr, _) =>
      ExprGrows(known, b, expr);
      assert Prefix(b.blocks[b.cur], EmitExpr(known, b, expr).value.0.blocks[b.cur]);
    case BreakStmt =>
    case CycleStmt =>
  }

  lemma LinkAppends(known: set<string>, b: Builder, link: IfLink)
    requires b.Valid() && EmitLink(known, b, link).Ok?
    ensures |EmitLink(known, b, link).value.blocks[b.cur]| > |b.blocks[b.cur]|
  {
    var t := StagesOf(known, b, link);
    hide EmitExpr, EmitBlock, EmitStmt, EmitLink;
    ExprGrows(known, b, link.cond);
    assert Prefix(b.blocks[b.cur], t.cond.blocks[b.cur]);
    BlockGrows(known, t.thn, link.thn);
    assert t.els.blocks[b.cur] == t.thn.blocks[b.cur];
    match link.els
    case NoElse =>
    case ElseBlock(stmts) => BlockGrows(known, t.els, stmts);
    case ElseIfLink(next) => LinkGrows(known, t.els, next);
  }

  lemma JumpThenMore(known: set<string>, b: Builder, s: Stmt)
    requires b.Valid() && EmitStmt(known, b, s).Ok? && Terminated(b.Here())
    ensures HasBroken(EmitStmt(known, b, s).value.blocks)
  {
    StmtAppends(known, b, s);
    StmtGrows(known, b, s);
    var b' := EmitStmt(known, b, s).value;
    assert Prefix(b.blocks[b.cur], b'.blocks[b.cur]);
    assert IsTerminator(b'.blocks[b.cur][|b.Here()| - 1]);
    assert Broken(b'.blocks[b.cur]);
  }

  lemma {:induction false} StmtShape(known: set<string>, b: Builder, s: Stmt)
    requires b.Valid() && EmitStmt(known, b, s).Ok? && Open(b.Here())
    ensures var b' := EmitStmt(known, b, s).value;
            if TidyStmt(s) then Shape(b, b', Jumps(s)) else HasBroken(b'.blocks)
    decreases s
  {
    match s
    case IfStmt(link) => LinkShape(known, b, link);
    case LoopStmt(body) => LoopShape(known, b, body);
    case DeclStmt(_, _, value, _) => ExprStaysOpen(known, b, value);
    case AssignStmt(_, value) => ExprStaysOpen(known, b, value);
    case ShowStmt(expr, _) => ExprStaysOpen(known, b, expr);
    case ReturnStmt(expr, _) => ExprStaysOpen(known, b, expr);
    case BreakStmt =>
    case CycleStmt =>
  }

  lemma {:induction false} LoopShape(known: set<string>, b: Builder, body: seq<Stmt>)
    requires b.Valid() && EmitStmt(known, b, LoopStmt(body)).Ok? && Open(b.Here())
    ensures var b' := EmitStmt(known, b, LoopStmt(body)).value;
            if TidyStmt(LoopStmt(body)) then Shape(b, b', false) else HasBroken(b'.blocks)
    decreases body, 1
  {
    var b1 := b.OpenLoop();
    var b2 := EmitBlock(known, b1, body).value;
    var b' := EmitStmt(known, b, LoopStmt(body)).value;
    LoopLands(known, b, body);
    BlockGrows(known, b1, body);
    BlockShape(known, b1, body);
    AddGrows(b2, b2, Br(|b.blocks|));
    if !Tidy(body) {
      BrokenStays(b2.blocks, b'.blocks);
    } else if EndsInJump(body) {
      assert Broken(b2.Add(Br(|b.blocks|)).blocks[b2.cur]) by {
        assert IsTerminator(b2.Add(Br(|b.blocks|)).blocks[b2.cur][|b2.Here()| - 1]);
      }
    } else {
      assert b'.blocks[b.cur] == b1.blocks[b.cur];
    }
  }

  /** All blocks made since b, and its current one, are complete but for the pending ones. */
  ghost predicate Sealed(b: Builder, b': Builder, pending: set<nat>)
    requires b.Valid()
  {
    forall i | 0 <= i < |b'.blocks| && (i == b.cur || i >= |b.blocks|) && i !in pending :: Complete(b'.blocks[i])
  }

  lemma CloseExtends(b: Builder, end: nat)
    requires b.Valid()
    ensures Extends(b.blocks, b.CloseWith(end).blocks)
  {
    AddGrows(b, b, Br(end));
  }

  /** A branch emitted from b1 to b2 and closed: its blocks are complete, the pending ones untouched. */
  lemma SealBranch(b: Builder, b1: Builder, b2: Builder, jumped: bool, end: nat, pending: set<nat>)
    requires b.Valid() && b1.Valid() && Grows(b1, b2) && Shape(b1, b2, jumped)
    requires Sealed(b, b1, pending + {b1.cur}) && |b.blocks| <= |b1.blocks| && b1.cur >= |b.blocks|
    requires forall i | i in pending :: i < |b1.blocks|
    requires b1.cur !in pending
    ensures Sealed(b, b2.CloseWith(end), pending)
    ensures forall i | i in pending :: b2.CloseWith(end).blocks[i] == b1.blocks[i]
  {
    var b3 := b2.CloseWith(end);
    forall i | 0 <= i < |b3.blocks| && (i == b.cur || i >= |b.blocks|) && i !in pending
      ensures Complete(b3.blocks[i])
    {
      if i == b2.cur {
        if !jumped {
          assert b3.blocks[i][..|b3.blocks[i]| - 1] == b2.blocks[i];
        }
      } else {
        assert b3.blocks[i] == b2.blocks[i];
      }
    }
  }

  lemma {:induction false} LinkShape(known: set<string>, b: Builder, link: IfLink)
    requires b.Valid() && EmitLink(known, b, link).Ok? && Open(b.Here())
    ensures var b' := EmitLink(known, b, link).value;
            if TidyLink(link) then Shape(b, b', false) else HasBroken(b'.blocks)
    decreases link
  {
    hide EmitExpr, EmitBlock;
    var t := StagesOf(known, b, link);
    var b' := EmitLink(known, b, link).value;
    LinkLands(known, b, link);
    ThenShape(known, b, link);
    CloseExtends(t.thnEnd, t.end);
    CloseExtends(t.elsEnd, t.end);
    if !Tidy(link.thn) {
      BrokenStays(t.thnEnd.blocks, t.els.blocks);
    }
    if !link.els.NoElse? {
      assert Sealed(b, t.els, {t.end} + {t.els.cur}) || !Tidy(link.thn);
      match link.els {
        case ElseBlock(stmts) =>
          BlockGrows(known, t.els, stmts);
          BlockShape(known, t.els, stmts);
          ElseShape(b, t, Tidy(link.thn), Tidy(stmts), EndsInJump(stmts));
        case ElseIfLink(next) =>
          LinkGrows(known, t.els, next);
          LinkShape(known, t.els, next);
          ElseShape(b, t, Tidy(link.thn), TidyLink(next), false);
      }
    }
  }

  lemma ThenShape(known: set<string>, b: Builder, link: IfLink)
    requires b.Valid() && EmitLink(known, b, link).Ok? && Open(b.Here())
    ensures var t := StagesOf(known, b, link);
            && t.els.cur >= |b.blocks| && t.els.Here() == [] && t.end < |t.els.blocks| && |b.blocks| <= |t.els.blocks|
            && (if link.els.NoElse? then t.els.cur == t.end else t.els.cur != t.end)
            && (if Tidy(link.thn) then Sealed(b, t.els, {t.els.cur, t.end}) else HasBroken(t.thnEnd.blocks))
    decreases link, 0
  {
    hide EmitExpr, EmitBlock, EmitStmt;
    var t := StagesOf(known, b, link);
    ExprStaysOpen(known, b, link.cond);
    OpenThenGrows(t.cond, t.v, link);
    BlockGrows(known, t.thn, link.thn);
    BlockShape(known, t.thn, link.thn);
    assert t.thn.blocks[b.cur][..|t.thn.blocks[b.cur]| - 1] == t.cond.blocks[b.cur];
    if Tidy(link.thn) {
      SealBranch(b, t.thn, t.thnEnd, EndsInJump(link.thn), t.end, {|t.cond.blocks| + 1, t.end});
    }
  }

  lemma ElseShape(b: Builder, t: Stages, tidyThen: bool, tidyElse: bool, jumped: bool)
    requires b.Valid() && t.els.Valid() && t.elsEnd.Valid() && Grows(t.els, t.elsEnd)
    requires t.els.cur >= |b.blocks| && |b.blocks| <= |t.els.blocks| && t.els.cur != t.end && t.end < |t.els.blocks|
    requires if tidyThen then Sealed(b, t.els, {t.els.cur, t.end}) else HasBroken(t.els.blocks)
    requires if tidyElse then Shape(t.els, t.elsEnd, jumped) else HasBroken(t.elsEnd.blocks)
    ensures var b' := t.elsEnd.CloseWith(t.end);
            if tidyThen && tidyElse then Sealed(b, b', {t.end}) else HasBroken(b'.blocks)
  {
    CloseExtends(t.elsEnd, t.end);
    if tidyThen && tidyElse {
      assert {t.end} + {t.els.cur} == {t.els.cur, t.end};
      SealBranch(b, t.els, t.elsEnd, jumped, t.end, {t.end});
    } else if !tidyElse {
      BrokenStays(t.elsEnd.blocks, t.elsEnd.CloseWith(t.end).blocks);
    } else {
      BrokenStays(t.els.blocks, t.elsEnd.blocks);
      BrokenStays(t.elsEnd.blocks, t.elsEnd.CloseWith(t.end).blocks);
    }
  }

  lemma {:induction false} BlockShape(known: set<string>, b: Builder, stmts: seq<Stmt>)
    requires b.Valid() && EmitBlock(known, b, stmts).Ok? && Open(b.Here())
    ensures var b' := EmitBlock(known, b, stmts).value;
            if Tidy(stmts) then Shape(b, b', EndsInJump(stmts)) else HasBroken(b'.blocks)
    decreases stmts, 0
  {
    if stmts != [] {
      var b1 := EmitStmt(known, b, stmts[0]).value;
      var b' := EmitBlock(known, b, stmts).value;
      StmtShape(known, b, stmts[0]);
      StmtGrows(known, b, stmts[0]);
      BlockGrows(known, b1, stmts[1..]);
      if !TidyStmt(stmts[0]) {
        BrokenStays(b1.blocks, b'.blocks);
      } else if |stmts| > 1 && Jumps(stmts[0]) {
        JumpThenMore(known, b1, stmts[1]);
        BlockGrows(known, EmitStmt(known, b1, stmts[1]).value, stmts[1..][1..]);
        BrokenStays(EmitStmt(known, b1, stmts[1]).value.blocks, b'.blocks);
      } else if |stmts| > 1 {
        BlockShape(known, b1, stmts[1..]);
        assert EndsInJump(stmts) == EndsInJump(stmts[1..]);
        if Tidy(stmts[1..]) {
          ShapeTrans(b, b1, b', EndsInJump(stmts[1..]));
        }
      } else {
        assert stmts[1..] == [] && Tidy(stmts) && b' == b1;
      }
    }
  }

  lemma ShapeTrans(b: Builder, b1: Builder, b2: Builder, jumped: bool)
    requires b.Valid() && b1.Valid() && Grows(b, b1) && Grows(b1, b2)
    requires Shape(b, b1, false) && Shape(b1, b2, jumped)
    ensures Shape(b, b2, jumped)
  {
    forall i | 0 <= i < |b2.blocks| && (i == b.cur || i >= |b.blocks|) && i != b2.cur
      ensures Complete(b2.blocks[i])
    {
      if i < |b1.blocks| && i != b1.cur {
        assert b2.blocks[i] == b1.blocks[i];
      }
    }
  }

  /** The emitted blocks pass the verifier's rule if and only if the body is tidy and ends in return. */
  lemma WellFormedIffTidy(known: set<string>, f: FunctionDecl)
    requires EmitFunction(known, f).Ok?
    ensures WellFormed(EmitFunction(known, f).value.blocks) <==> TidyFunction(f.body)
  {
    var b := EmitFunction(known, f).value;
    BlockShape(known + {f.name}, START, f.body);
    if Tidy(f.body) {
      if WellFormed(b.blocks) {
        assert Complete(b.Here());
      }
      if EndsInJump(f.body) {
        LastIsReturn(known + {f.name}, START, f.body);
      }
    } else if WellFormed(b.blocks) {
      NotBoth(b.blocks);
    }
  }

  /** Outside a loop break and cycle are rejected, so the only jump that can end a body is return. */
  lemma {:induction false} LastIsReturn(known: set<string>, b: Builder, stmts: seq<Stmt>)
    requires b.Valid() && EmitBlock(known, b, stmts).Ok? && b.loops == [] && EndsInJump(stmts)
    ensures stmts[|stmts| - 1].ReturnStmt?
    decreases stmts
  {
    if |stmts| > 1 {
      StmtGrows(known, b, stmts[0]);
      LastIsReturn(known, EmitStmt(known, b, stmts[0]).value, stmts[1..]);
    }
  }
}
