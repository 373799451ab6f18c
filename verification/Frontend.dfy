/** The whole compiler: text in, module out. */
module Frontend {
  import opened Results
  import opened Syntax
  import opened Ir
  import opened Codegen
  import opened CodegenVisiting
  import opened Behaviour
  import opened Checking
  import opened Annotating
  import opened CheckVisiting
  import opened Scoping
  import opened Verifying
  import opened Compiler
  import opened Parsing
  import opened TokenParser
  import opened Printing
  import opened Lexing
  import opened LexingProofs
  import opened TextLexer
  import opened TextToTree
  import opened Lexicon
  import opened StatementGrammar
  import opened Admission

  function CompileText(floatFits: (string, TypeId) -> bool, text: string): Result<Module> {
    var ts :- Tokenise(text);
    var fns :- ParseProgram(ts);
    var checked :- CheckProgram(InitialState(floatFits), fns);
    Generate(checked.1)
  }

  lemma {:induction false} LocateTokens(s: string, i: nat, ls: seq<Lexeme>, last: Location)
    ensures var located := Locate(s, i, ls, last);
            |located| == |ls| && forall k | 0 <= k < |ls| :: located[k].token == ls[k].token
    decreases ls
  {
    if ls != [] {
      var l := ls[0];
      var start := if i + l.space <= |s| then i + l.space else |s|;
      LocateTokens(s, start + l.width, ls[1..], if l.located then LocationAfter(s[..start]) else last);
    }
  }

  /** The checker at work on the nodes of a program. */
  method Annotate(floatFits: (string, TypeId) -> bool, fns: seq<FunctionDecl>) returns (r: Result<seq<FunctionDecl>>)
    ensures match CheckProgram(InitialState(floatFits), fns)
            case Ok((_, fns')) => r == Ok(fns')
            case Err(error) => r == Err(error)
  {
    hide CheckProgram, ProgramTree, ProgramValid;
    var nodes, h := ProgramNodes(fns);
    var checker := new TypeCheckVisitor(floatFits);
    var _ :- checker.VisitProgram(nodes, h);
    return Ok(ProgramTree(nodes, h));
  }

  /** The code generator at work, and the verifier. */
  method GenerateModule(fns: seq<FunctionDecl>) returns (r: Result<Module>)
    ensures r == Generate(fns)
  {
    hide EmitProgram, RenamedBlocks, Accepts;
    var codegen := new CodegenVisitor();
    var _ :- codegen.VisitProgram(fns);
    assert codegen.renamed == RenamedBlocks({PRINTF}, fns);
    return if Verifies(codegen.functions, codegen.renamed) then Ok(codegen.functions) else Err(BrokenModule);
  }

  /** The stages as they are written, one after the other; the lexer hands the parser what it needs. */
  method CompileSource(floatFits: (string, TypeId) -> bool, text: string) returns (r: Result<Module>)
    ensures r == CompileText(floatFits, text)
  {
    var lexer := new Lexer(text);
    assert text[0..] == text;
    var located :- lexer.Tokenise();
    ghost var ls := Lexemes(text).value;
    LocateTokens(text, 0, ls, Location(1, 0));
    LexemesPartition(text, 0);
    var tokens := seq(|located|, i requires 0 <= i < |located| => located[i].token);
    assert tokens == TokensOf(ls);
    var parser := new Parser(tokens);
    var fns :- parser.TopLevel();
    var annotated :- Annotate(floatFits, fns);
    r := GenerateModule(annotated);
  }

  /** Printing a program and compiling the text is checking and compiling the program. */
  lemma PrintedCompiles(floatFits: (string, TypeId) -> bool, fns: seq<FunctionDecl>, gaps: seq<string>)
    requires ParsedProgram(fns) && NamedProgram(fns)
    requires |gaps| == |PrintProgram(fns)| + 1 && Spaces(gaps)
    requires GapsOk(PrintProgram(fns), gaps)
    ensures CompileText(floatFits, Render(PrintProgram(fns), gaps))
         == var checked := CheckProgram(InitialState(floatFits), fns);
            if checked.Err? then Err(checked.error) else Generate(checked.value.1)
  {
    TextRoundTrip(fns, gaps);
  }

  /** For one function the extra pop of the program check changes nothing else. */
  lemma OneFunctionCheck(floatFits: (string, TypeId) -> bool, fns: seq<FunctionDecl>)
    requires CheckProgram(InitialState(floatFits), fns).Ok?
    ensures CheckFunctions(InitialState(floatFits), fns).Ok?
    ensures CheckFunctions(InitialState(floatFits), fns).value.1 == CheckProgram(InitialState(floatFits), fns).value.1
  {
    hide CheckFunction;
    ProgramsHaveOneFunction(floatFits, fns);
    if |fns| == 1 {
      var (st1, f) := CheckFunction(InitialState(floatFits), fns[0]).value;
      assert CheckProgram(st1.Pop(), fns[1..]) == Ok((st1.Pop(), []));
      assert CheckFunctions(st1, fns[1..]) == Ok((st1, []));
    }
  }

  /** The tokens of a text before the end of the file. */
  function Words(ls: seq<Lexeme>): Tokens
    requires ls != []
  {
    TokensOf(ls)[..|ls| - 1]
  }

  /** A text is lexed, parsed and accepted, as such lexemes and as such a program, if and only if the lexemes cut
      the text, spell the program, and the program is admitted: each a relation stated without the stage that
      decides it. */
  lemma TextAccepted(floatFits: (string, TypeId) -> bool, text: string, ls: seq<Lexeme>, fns: seq<FunctionDecl>)
    requires ls != []
    ensures && Lexemes(text) == Ok(ls) && ParseProgram(TokensOf(ls)) == Ok(fns)
            && CheckFunctions(InitialState(floatFits), fns).Ok?
       <==> Cuts(text, ls) && SpellsProgram(Words(ls), fns) && AdmitsFunctions(map[], floatFits, fns)
  {
    hide Lexemes, ParseProgram, CheckFunctions, Cuts, SpellsProgram, AdmitsFunctions;
    LexemesIffCuts(text, ls);
    FunctionsAdmitted(InitialState(floatFits), fns);
    if Lexemes(text) == Ok(ls) {
      assert text[0..] == text;
      LexemesPartition(text, 0);
      var eof := ls[|ls| - 1].token;
      assert TokensOf(ls) == Words(ls) + [eof];
      ProgramIffSpells(Words(ls), fns, eof);
    }
  }

  /** From text to behaviour: a text whose lexemes spell an admitted program, with fresh function names, clean, its
      float literals doubles, is compiled function by function to a correct module exactly when every construct has
      an LLVM counterpart and no name is declared twice in a function. */
  lemma TextBehaves(floatFits: (string, TypeId) -> bool, text: string, ls: seq<Lexeme>, fns: seq<FunctionDecl>)
    requires ls != [] && Cuts(text, ls) && SpellsProgram(Words(ls), fns) && AdmitsFunctions(map[], floatFits, fns)
    ensures Tokenise(text) == Ok(TokensOf(ls)) && ParseProgram(TokensOf(ls)) == Ok(fns)
    ensures CheckFunctions(InitialState(floatFits), fns).Ok?
    ensures Behaves(fns, CheckFunctions(InitialState(floatFits), fns).value.1)
  {
    hide Cuts, SpellsProgram, AdmitsFunctions, Words, Lexemes, ParseProgram, CheckFunctions, CleanFunctions,
         DoublesOnly, FreshNames, Compilable, CorrectModule, Compile;
    TextAccepted(floatFits, text, ls, fns);
    var fns' := CheckFunctions(InitialState(floatFits), fns).value.1;
    if CleanFunctions(fns') && DoublesOnly(fns') && FreshNames(fns', {PRINTF}) {
      CompilerCorrect(floatFits, fns);
    }
  }

  ghost predicate Behaves(fns: seq<FunctionDecl>, fns': seq<FunctionDecl>) {
    CleanFunctions(fns') && DoublesOnly(fns') && FreshNames(fns', {PRINTF}) ==>
      && (Compile(fns').Ok? <==> Compilable(fns'))
      && (Compile(fns').Ok? ==> CorrectModule(fns, fns'))
  }

  /** The same for the compiler from end to end, with the program check and its extra pop, which lets one function
      through. */
  lemma CompileTextBehaves(floatFits: (string, TypeId) -> bool, text: string, ls: seq<Lexeme>,
                           fns: seq<FunctionDecl>)
    requires ls != [] && Cuts(text, ls) && SpellsProgram(Words(ls), fns)
    ensures if |fns| > 1 || !AdmitsFunctions(map[], floatFits, fns) then CompileText(floatFits, text).Err?
            else
              && CheckProgram(InitialState(floatFits), fns).Ok?
              && var fns' := CheckProgram(InitialState(floatFits), fns).value.1;
              && CompileText(floatFits, text) == Generate(fns') && Behaves(fns, fns')
  {
    hide Cuts, SpellsProgram, AdmitsFunctions, Lexemes, ParseProgram, CheckFunctions, CheckProgram, CleanFunctions,
         DoublesOnly, FreshNames, Compilable, CorrectModule, Compile, Behaves, Generate;
    LexemesIffCuts(text, ls);
    assert text[0..] == text;
    LexemesPartition(text, 0);
    var eof := ls[|ls| - 1].token;
    assert TokensOf(ls) == Words(ls) + [eof];
    ProgramIffSpells(Words(ls), fns, eof);
    ProgramAdmitted(floatFits, fns);
    if |fns| <= 1 && AdmitsFunctions(map[], floatFits, fns) {
      OneFunctionCheck(floatFits, fns);
      TextBehaves(floatFits, text, ls, fns);
    }
  }

  /** Nothing else is compiled: a text that yields a module is cut by its lexemes, which spell an admitted program of
      at most one function. */
  lemma CompiledOnlyIf(floatFits: (string, TypeId) -> bool, text: string)
    returns (ls: seq<Lexeme>, fns: seq<FunctionDecl>)
    requires CompileText(floatFits, text).Ok?
    ensures ls != [] && Cuts(text, ls) && SpellsProgram(Words(ls), fns)
    ensures |fns| <= 1 && AdmitsFunctions(map[], floatFits, fns)
  {
    hide Cuts, SpellsProgram, AdmitsFunctions, Lexemes, ParseProgram, CheckFunctions, CheckProgram, Generate;
    ls := Lexemes(text).value;
    LexemesIffCuts(text, ls);
    fns := ParseProgram(TokensOf(ls)).value;
    ProgramAdmitted(floatFits, fns);
    OneFunctionCheck(floatFits, fns);
    assert text[0..] == text;
    LexemesPartition(text, 0);
    TextAccepted(floatFits, text, ls, fns);
  }
}
