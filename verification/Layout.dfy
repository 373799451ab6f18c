/** How emission changes a builder: it only appends, it touches no earlier block but the one at the
    insertion point, and every variable keeps a slot of its own. */
module Layout {
  import opened Syntax
  import opened Ir
  import opened Codegen

  ghost predicate Prefix(a: Block, b: Block) {
    |a| <= |b| && forall k | 0 <= k < |a| :: b[k] == a[k]
  }

  /** Every block of `part` is the beginning of the block with the same number in `all`. */
  ghost predicate Extends(part: seq<Block>, all: seq<Block>) {
    |part| <= |all| && forall i {:trigger Prefix(part[i], all[i])} | 0 <= i < |part| :: Prefix(part[i], all[i])
  }

  ghost predicate NamesKept(m: map<string, nat>, m': map<string, nat>) {
    forall x | x in m :: x in m' && m'[x] == m[x]
  }

  /** Each name has a slot of its own below the counter. */
  ghost predicate SlotsOk(named: map<string, nat>, next: nat) {
    && (forall x | x in named :: named[x] < next)
    && (forall x, y | x in named && y in named && x != y :: named[x] != named[y])
  }

  ghost predicate Grows(b: Builder, b': Builder)
    requires b.Valid()
  {
    && b'.Valid()
    && Extends(b.blocks, b'.blocks)
    && (forall i | 0 <= i < |b.blocks| && i != b.cur :: b'.blocks[i] == b.blocks[i])
    && (b'.cur == b.cur || b'.cur >= |b.blocks|)
    && b.next <= b'.next
    && NamesKept(b.named, b'.named)
    && (SlotsOk(b.named, b.next) ==> SlotsOk(b'.named, b'.next))
  }

  lemma GrowsTrans(a: Builder, b: Builder, c: Builder)
    requires a.Valid() && Grows(a, b) && Grows(b, c)
    ensures Grows(a, c)
  {
    forall i | 0 <= i < |a.blocks|
      ensures Prefix(a.blocks[i], c.blocks[i])
    {
      assert Prefix(a.blocks[i], b.blocks[i]) && Prefix(b.blocks[i], c.blocks[i]);
    }
  }

  lemma ExtendsTrans(a: seq<Block>, b: seq<Block>, c: seq<Block>)
    requires Extends(a, b) && Extends(b, c)
    ensures Extends(a, c)
  {
    forall i | 0 <= i < |a|
      ensures Prefix(a[i], c[i])
    {
      assert Prefix(a[i], b[i]) && Prefix(b[i], c[i]);
    }
  }

  lemma AddGrows(b: Builder, b1: Builder, i: Instr)
    requires b.Valid() && Grows(b, b1)
    ensures Grows(b, b1.Add(i)) && Grows(b, b1.Define(i))
  {
    assert Grows(b1, b1.Add(i));
    GrowsTrans(b, b1, b1.Add(i));
  }

  lemma DeclGrows(b: Builder, b1: Builder, name: string)
    requires b.Valid() && Grows(b, b1) && name !in b1.named && b1.next > 0
    requires SlotsOk(b.named, b.next) ==> SlotsOk(b1.named, b1.next - 1)
    ensures Grows(b, b1.(named := b1.named[name := b1.next - 1]))
  {
  }

  /** Jumping to blocks opened since b leaves the blocks of b alone. */
  lemma JumpGrows(b: Builder, b1: Builder, i: Instr, k: nat, loops: seq<LoopBlocks>)
    requires b.Valid() && Grows(b, b1) && b1.cur >= |b.blocks| && |b.blocks| <= k < |b1.blocks|
    ensures Grows(b, b1.Add(i).MoveTo(k).(loops := loops)) && Grows(b, b1.MoveTo(k).(loops := loops))
  {
    forall j | 0 <= j < |b.blocks|
      ensures Prefix(b.blocks[j], b1.Add(i).blocks[j])
    {
      assert Prefix(b.blocks[j], b1.blocks[j]);
    }
  }

  lemma OpenLoopGrows(b: Builder)
    requires b.Valid()
    ensures Grows(b, b.OpenLoop())
  {
  }

  lemma OpenThenGrows(b: Builder, cond: Operand, link: IfLink)
    requires b.Valid()
    ensures Grows(b, b.OpenThen(cond, link))
    ensures forall k | |b.blocks| <= k < b.EndOf(link) + 1 :: b.OpenThen(cond, link).blocks[k] == []
  {
  }

  /** Closing a branch emitted from b1 to b2 and moving on to block k. */
  lemma CloseGrows(b: Builder, b1: Builder, b2: Builder, end: nat, k: nat)
    requires b.Valid() && Grows(b, b1) && Grows(b1, b2) && b1.cur >= |b.blocks|
    requires |b.blocks| <= k < |b1.blocks|
    ensures Grows(b, b2.CloseWith(end).MoveTo(k))
  {
    GrowsTrans(b, b1, b2);
    JumpGrows(b, b2, Br(end), k, b2.loops);
  }

  lemma {:induction false} ExprGrows(known: set<string>, b: Builder, e: Expr)
    requires b.Valid() && EmitExpr(known, b, e).Ok?
    ensures Grows(b, EmitExpr(known, b, e).value.0)
    decreases e
  {
    if e.Binary? {
      var l := EmitExpr(known, b, e.lhs).value;
      var r := EmitExpr(known, l.0, e.rhs).value;
      ExprGrows(known, b, e.lhs);
      ExprGrows(known, l.0, e.rhs);
      GrowsTrans(b, l.0, r.0);
      AddGrows(b, r.0, Op(r.0.next, OpcodeFor(e.op, e.operand, e.resolved).value, l.1, r.1));
    }
  }

  lemma {:induction false} StmtGrows(known: set<string>, b: Builder, s: Stmt)
    requires b.Valid() && EmitStmt(known, b, s).Ok?
    ensures Grows(b, EmitStmt(known, b, s).value)
    ensures EmitStmt(known, b, s).value.loops == b.loops
    decreases s
  {
    match s
    case DeclStmt(name, _, value, declared) =>
      ExprGrows(known, b, value);
      var v := EmitExpr(known, b, value).value;
      var alloca := Alloca(v.0.next, LlvmTypeOf(declared.value).value);
      AddGrows(b, v.0, alloca);
      AddGrows(b, v.0.Define(alloca), Store(v.1, v.0.next));
      DeclGrows(b, v.0.Define(alloca).Add(Store(v.1, v.0.next)), name);
    case AssignStmt(name, value) =>
      ExprGrows(known, b, value);
      var v := EmitExpr(known, b, value).value;
      AddGrows(b, v.0, Store(v.1, b.named[name]));
    case ShowStmt(expr, _) =>
      ExprGrows(known, b, expr);
      var v := EmitExpr(known, b, expr).value;
      AddGrows(b, v.0, CallPrintf(v.1));
    case ReturnStmt(expr, _) =>
      ExprGrows(known, b, expr);
      var v := EmitExpr(known, b, expr).value;
      AddGrows(b, v.0, Ret(v.1));
    case IfStmt(link) => LinkGrows(known, b, link);
    case LoopStmt(body) =>
      var b1 := b.OpenLoop();
      var b2 := EmitBlock(known, b1, body).value;
      OpenLoopGrows(b);
      BlockGrows(known, b1, body);
      GrowsTrans(b, b1, b2);
      JumpGrows(b, b2, Br(|b.blocks|), |b.blocks| + 1, b.loops);
    case BreakStmt =>
      AddGrows(b, b, Br(b.loops[|b.loops| - 1].end));
    case CycleStmt =>
      AddGrows(b, b, Br(b.loops[|b.loops| - 1].body));
  }

  lemma {:induction false} LinkGrows(known: set<string>, b: Builder, link: IfLink)
    requires b.Valid() && EmitLink(known, b, link).Ok?
    ensures Grows(b, EmitLink(known, b, link).value)
    ensures EmitLink(known, b, link).value.loops == b.loops
    decreases link
  {
    hide EmitExpr, EmitBlock, EmitStmt;
    var c := EmitExpr(known, b, link.cond).value;
    var b1 := c.0.OpenThen(c.1, link);
    var b2 := EmitBlock(known, b1, link.thn).value;
    var end := c.0.EndOf(link);
    var b3 := b2.CloseWith(end).MoveTo(|c.0.blocks| + 1);
    ExprGrows(known, b, link.cond);
    OpenThenGrows(c.0, c.1, link);
    BlockGrows(known, b1, link.thn);
    CloseGrows(c.0, b1, b2, end, |c.0.blocks| + 1);
    GrowsTrans(b, c.0, b3);
    match link.els
    case NoElse =>
    case ElseBlock(stmts) =>
      BlockGrows(known, b3, stmts);
      CloseGrows(b, b3, EmitBlock(known, b3, stmts).value, end, end);
    case ElseIfLink(next) =>
      LinkGrows(known, b3, next);
      CloseGrows(b, b3, EmitLink(known, b3, next).value, end, end);
  }

  lemma {:induction false} BlockGrows(known: set<string>, b: Builder, stmts: seq<Stmt>)
    requires b.Valid() && EmitBlock(known, b, stmts).Ok?
    ensures Grows(b, EmitBlock(known, b, stmts).value)
    ensures EmitBlock(known, b, stmts).value.loops == b.loops
    decreases stmts
  {
    if stmts != [] {
      var b1 := EmitStmt(known, b, stmts[0]).value;
      StmtGrows(known, b, stmts[0]);
      BlockGrows(known, b1, stmts[1..]);
      GrowsTrans(b, b1, EmitBlock(known, b1, stmts[1..]).value);
    }
  }

  /** A conditional leaves the insertion point in its end block, still empty. */
  lemma {:induction false} LinkLands(known: set<string>, b: Builder, link: IfLink)
    requires b.Valid() && EmitLink(known, b, link).Ok?
    ensures var b' := EmitLink(known, b, link).value; b'.cur == b.EndOf(link) && b'.Here() == []
    decreases link
  {
    hide EmitExpr, EmitBlock, EmitStmt;
    var c := EmitExpr(known, b, link.cond).value;
    var b1 := c.0.OpenThen(c.1, link);
    var b2 := EmitBlock(known, b1, link.thn).value;
    var end := c.0.EndOf(link);
    var b3 := b2.CloseWith(end).MoveTo(|c.0.blocks| + 1);
    OpenThenGrows(c.0, c.1, link);
    BlockGrows(known, b1, link.thn);
    match link.els
    case NoElse =>
    case ElseBlock(stmts) => BlockGrows(known, b3, stmts);
    case ElseIfLink(next) => LinkGrows(known, b3, next);
  }

  /** A loop leaves the insertion point in its end block, still empty. */
  lemma LoopLands(known: set<string>, b: Builder, body: seq<Stmt>)
    requires b.Valid() && EmitStmt(known, b, LoopStmt(body)).Ok?
    ensures var b' := EmitStmt(known, b, LoopStmt(body)).value; b'.cur == |b.blocks| + 1 && b'.Here() == []
  {
    BlockGrows(known, b.OpenLoop(), body);
  }

  /** The builder at the stages of one chain link: after the condition, at the start and end of the
      then part, at the start and end of the else part. */
  datatype Stages = Stages(cond: Builder, v: Operand, thn: Builder, thnEnd: Builder, els: Builder,
                           elsEnd: Builder, end: nat)

  function StagesOf(known: set<string>, b: Builder, link: IfLink): (t: Stages)
    requires b.Valid() && EmitLink(known, b, link).Ok?
    ensures t.cond.Valid() && t.thn.Valid() && t.thnEnd.Valid() && t.els.Valid() && t.elsEnd.Valid()
  {
    var cond := EmitExpr(known, b, link.cond).value;
    var thn := cond.0.OpenThen(cond.1, link);
    var thnEnd := EmitBlock(known, thn, link.thn).value;
    var end := cond.0.EndOf(link);
    var els := thnEnd.CloseWith(end).MoveTo(|cond.0.blocks| + 1);
    var elsEnd :=
      match link.els
      case NoElse => els
      case ElseBlock(stmts) => EmitBlock(known, els, stmts).value
      case ElseIfLink(next) => EmitLink(known, els, next).value;
    Stages(cond.0, cond.1, thn, thnEnd, els, elsEnd, end)
  }
}
