/** The conditional blocks of the script templates: the line-by-line machine with
    its block stack, and what a document means. */
module Conditionals {
  import opened SeqFacts

  /** What evaluating a condition against the data dictionary yields. */
  datatype Verdict = Yes | No | Throws

  /** A script line, classified by the directive it contains. */
  datatype Line<P> = If(cond: string) | Elif(cond: string) | Else | Endif | Text(payload: P)

  datatype BlockType = IF | ELIF | ELSE

  /** One open block: its current branch, whether an earlier or the current
      branch was chosen, whether it renders, and whether its parent does. */
  datatype BlockState = BlockState(kind: BlockType, matched: bool, render: bool, parent: bool)

  datatype Result<T> = Ok(value: T) | Thrown

  /** State of the machine between two lines. */
  datatype Machine<P> = Machine(stack: seq<BlockState>, out: seq<P>)

  // --- The machine -------------------------------------------------------------

  predicate Rendering(stack: seq<BlockState>) { stack == [] || stack[|stack| - 1].render }

  function SetTop(stack: seq<BlockState>, b: BlockState): seq<BlockState>
    requires stack != []
  {
    stack[..|stack| - 1] + [b]
  }

  /** The top block after an `elif` whose condition evaluated to `holds`. */
  function AfterElif(b: BlockState, holds: bool): BlockState {
    if !b.matched && holds then BlockState(ELIF, true, b.parent, b.parent)
    else b.(kind := ELIF, render := false)
  }

  function AfterElse(b: BlockState): BlockState {
    b.(kind := ELSE, render := b.parent && !b.matched)
  }

  function StepLine<P>(m: Machine<P>, line: Line<P>, eval: string -> Verdict): Result<Machine<P>> {
    var Machine(stack, out) := m;
    match line
    case If(cond) =>
      if eval(cond) == Throws then Thrown
      else
        var holds, parent := eval(cond) == Yes, Rendering(stack);
        Ok(m.(stack := stack + [BlockState(IF, holds, parent && holds, parent)]))
    case Elif(cond) =>
      if stack == [] || stack[|stack| - 1].kind == ELSE then Ok(m)
      else if eval(cond) == Throws then Thrown
      else Ok(m.(stack := SetTop(stack, AfterElif(stack[|stack| - 1], eval(cond) == Yes))))
    case Else =>
      if stack == [] then Ok(m) else Ok(m.(stack := SetTop(stack, AfterElse(stack[|stack| - 1]))))
    case Endif =>
      if stack == [] then Ok(m) else Ok(m.(stack := stack[..|stack| - 1]))
    case Text(payload) =>
      if Rendering(stack) then Ok(m.(out := out + [payload])) else Ok(m)
  }

  function RunLines<P>(m: Machine<P>, lines: seq<Line<P>>, eval: string -> Verdict): Result<Machine<P>>
    decreases |lines|
  {
    if lines == [] then Ok(m)
    else match StepLine(m, lines[0], eval)
      case Ok(m') => RunLines(m', lines[1..], eval)
      case Thrown => Thrown
  }

  /** The lines joined with separators between them. */
  function Join<E>(lines: seq<seq<E>>, sep: seq<E>): seq<E> {
    if lines == [] then []
    else if |lines| == 1 then lines[0]
    else Join(lines[..|lines| - 1], sep) + sep + lines[|lines| - 1]
  }

  /** `replaceConditionals`: the loop with its stack and output stream. */
  method ReplaceConditionals<E>(lines: seq<Line<seq<E>>>, sep: seq<E>, eval: string -> Verdict)
    returns (r: Result<seq<E>>)
    ensures r == match RunLines(Machine([], []), lines, eval)
                 case Ok(m) => Ok(Join(m.out, sep))
                 case Thrown => Thrown
  {
    var stack: seq<BlockState> := [];
    var output: seq<E> := [];
    var first := true;
    ghost var out: seq<seq<E>> := [];
    var i := 0;
    while i < |lines|
      invariant 0 <= i <= |lines|
      invariant RunLines(Machine([], []), lines, eval) == RunLines(Machine(stack, out), lines[i..], eval)
      invariant output == Join(out, sep) && (first <==> out == [])
    {
      assert lines[i..][0] == lines[i] && lines[i..][1..] == lines[i + 1..];
      match lines[i] {
        case If(cond) =>
          if eval(cond) == Throws {
            return Thrown;
          }
          var holds := eval(cond) == Yes;
          var parent := if stack == [] then true else stack[|stack| - 1].render;
          stack := stack + [BlockState(IF, holds, parent && holds, parent)];
        case Elif(cond) =>
          if stack != [] {
            var top := stack[|stack| - 1];
            if top.kind == ELSE {
              i := i + 1;
              continue;
            }
            if eval(cond) == Throws {
              return Thrown;
            }
            var holds := eval(cond) == Yes;
            top := top.(kind := ELIF);
            if !top.matched && holds {
              top := top.(matched := true, render := top.parent);
            } else {
              top := top.(render := false);
            }
            stack := stack[..|stack| - 1] + [top];
          }
        case Else =>
          if stack != [] {
            var top := stack[|stack| - 1];
            top := top.(kind := ELSE, render := top.parent && !top.matched);
            stack := stack[..|stack| - 1] + [top];
          }
        case Endif =>
          if stack != [] {
            stack := stack[..|stack| - 1];
          }
        case Text(payload) =>
          if stack == [] || stack[|stack| - 1].render {
            if !first {
              output := output + sep;
            }
            output := output + payload;
            first := false;
            JoinSnoc(out, payload, sep);
            out := out + [payload];
          }
      }
      i := i + 1;
    }
    return Ok(output);
  }

  lemma JoinSnoc<E>(lines: seq<seq<E>>, line: seq<E>, sep: seq<E>)
    ensures Join(lines + [line], sep) == if lines == [] then line else Join(lines, sep) + sep + line
  {
    assert (lines + [line])[..|lines|] == lines;
  }

  // --- Documents -----------------------------------------------------------------

  /** A well-nested document. */
  datatype Doc<P> =
    | Nil
    | Item(payload: P, rest: Doc<P>)
    | Block(cond: string, body: Doc<P>, branches: Branches<P>, rest: Doc<P>)

  datatype Branches<P> =
    | Close
    | OrIf(cond: string, body: Doc<P>, more: Branches<P>)
    | Otherwise(body: Doc<P>)

  /** The lines a document is written as. */
  function Lines<P>(doc: Doc<P>): seq<Line<P>> {
    match doc
    case Nil => []
    case Item(payload, rest) => [Text(payload)] + Lines(rest)
    case Block(cond, body, branches, rest) =>
      [If(cond)] + Lines(body) + BranchLines(branches) + [Endif] + Lines(rest)
  }

  function BranchLines<P>(branches: Branches<P>): seq<Line<P>> {
    match branches
    case Close => []
    case OrIf(cond, body, more) => [Elif(cond)] + Lines(body) + BranchLines(more)
    case Otherwise(body) => [Else] + Lines(body)
  }

  /** What a document selects: of each block, the first branch whose condition holds. */
  function Select<P>(doc: Doc<P>, eval: string -> Verdict): seq<P> {
    match doc
    case Nil => []
    case Item(payload, rest) => [payload] + Select(rest, eval)
    case Block(cond, body, branches, rest) =>
      (if eval(cond) == Yes then Select(body, eval) else SelectBranch(branches, eval)) + Select(rest, eval)
  }

  function SelectBranch<P>(branches: Branches<P>, eval: string -> Verdict): seq<P> {
    match branches
    case Close => []
    case OrIf(cond, body, more) =>
      if eval(cond) == Yes then Select(body, eval) else SelectBranch(more, eval)
    case Otherwise(body) => Select(body, eval)
  }

  /** Some condition of the document, rendered or not, cannot be evaluated. */
  predicate Broken<P>(doc: Doc<P>, eval: string -> Verdict) {
    match doc
    case Nil => false
    case Item(_, rest) => Broken(rest, eval)
    case Block(cond, body, branches, rest) =>
      eval(cond) == Throws || Broken(body, eval) || BrokenBranch(branches, eval) || Broken(rest, eval)
  }

  predicate BrokenBranch<P>(branches: Branches<P>, eval: string -> Verdict) {
    match branches
    case Close => false
    case OrIf(cond, body, more) => eval(cond) == Throws || Broken(body, eval) || BrokenBranch(more, eval)
    case Otherwise(body) => Broken(body, eval)
  }

  // --- The machine computes the meaning ----------------------------------------------

  lemma {:induction false} RunAppend<P>(m: Machine<P>, a: seq<Line<P>>, b: seq<Line<P>>, eval: string -> Verdict)
    ensures RunLines(m, a + b, eval) ==
              match RunLines(m, a, eval)
              case Ok(m') => RunLines(m', b, eval)
              case Thrown => Thrown
    decreases |a|
  {
    if a == [] {
      assert a + b == b;
    } else {
      assert (a + b)[1..] == a[1..] + b;
      match StepLine(m, a[0], eval)
      case Ok(m') => RunAppend(m', a[1..], b, eval);
      case Thrown =>
    }
  }

  lemma RunOne<P>(m: Machine<P>, line: Line<P>, eval: string -> Verdict)
    ensures RunLines(m, [line], eval) == StepLine(m, line, eval)
  {
    assert [line][1..] == [];
  }

  /** `out` followed by `lines` if they are rendered. */
  function Emit<P>(out: seq<P>, on: bool, lines: seq<P>): seq<P> { if on then out + lines else out }

  lemma EmitEmit<P>(out: seq<P>, on: bool, a: seq<P>, b: seq<P>)
    ensures Emit(Emit(out, on, a), on, b) == Emit(out, on, a + b)
    ensures Emit(out, on, []) == out
  {
  }

  /** Inside any stack, the lines of a document leave the stack as it was and
      output the document's selection, or nothing if the innermost block is not
      rendering; they throw exactly when some condition cannot be evaluated. */
  lemma {:induction false} RunDoc<P>(stack: seq<BlockState>, out: seq<P>, doc: Doc<P>, eval: string -> Verdict)
    ensures RunLines(Machine(stack, out), Lines(doc), eval) ==
              if Broken(doc, eval) then Thrown
              else Ok(Machine(stack, Emit(out, Rendering(stack), Select(doc, eval))))
    decreases doc, 1
  {
    var m := Machine(stack, out);
    var on := Rendering(stack);
    match doc
    case Nil =>
      EmitEmit(out, on, [], []);
    case Item(payload, rest) =>
      RunAppend(m, [Text(payload)], Lines(rest), eval);
      RunOne(m, Text(payload), eval);
      RunDoc(stack, Emit(out, on, [payload]), rest, eval);
      EmitEmit(out, on, [payload], Select(rest, eval));
    case Block(cond, body, branches, rest) =>
      RunAppend(m, [If(cond)] + Lines(body) + BranchLines(branches) + [Endif], Lines(rest), eval);
      RunBlock(stack, out, doc, eval);
      if eval(cond) != Throws {
        var chosen := if eval(cond) == Yes then Select(body, eval) else SelectBranch(branches, eval);
        RunDoc(stack, Emit(out, on, chosen), rest, eval);
        EmitEmit(out, on, chosen, Select(rest, eval));
      }
  }

  /** One block, from its `if` to its `endif`. */
  lemma {:induction false} RunBlock<P>(stack: seq<BlockState>, out: seq<P>, doc: Doc<P>, eval: string -> Verdict)
    requires doc.Block?
    ensures RunLines(Machine(stack, out), [If(doc.cond)] + Lines(doc.body) + BranchLines(doc.branches) + [Endif],
                     eval) ==
              if eval(doc.cond) == Throws || Broken(doc.body, eval) || BrokenBranch(doc.branches, eval) then Thrown
              else Ok(Machine(stack, Emit(out, Rendering(stack),
                     if eval(doc.cond) == Yes then Select(doc.body, eval) else SelectBranch(doc.branches, eval))))
    decreases doc, 0
  {
    var Block(cond, body, branches, _) := doc;
    var m := Machine(stack, out);
    var head := [If(cond)] + Lines(body);
    RunAppend(m, head + BranchLines(branches), [Endif], eval);
    RunAppend(m, head, BranchLines(branches), eval);
    RunAppend(m, [If(cond)], Lines(body), eval);
    RunOne(m, If(cond), eval);
    if eval(cond) != Throws {
      var holds, parent := eval(cond) == Yes, Rendering(stack);
      var b := BlockState(IF, holds, parent && holds, parent);
      assert RunLines(m, [If(cond)], eval) == Ok(Machine(stack + [b], out));
      RunDoc(stack + [b], out, body, eval);
      assert Rendering(stack + [b]) == b.render;
      if !Broken(body, eval) {
        var out' := Emit(out, b.render, Select(body, eval));
        assert RunLines(m, head, eval) == Ok(Machine(stack + [b], out'));
        RunBranches(stack, b, out', branches, eval);
        var r := RunLines(Machine(stack + [b], out'), BranchLines(branches), eval);
        assert RunLines(m, head + BranchLines(branches), eval) == r;
        if r.Ok? {
          RunOne(r.value, Endif, eval);
          assert StepLine(r.value, Endif, eval) == Ok(Machine(stack, r.value.out));
        }
      } else {
        assert RunLines(m, head, eval) == Thrown;
      }
    }
  }

  /** The remaining branches of an open block, up to but not including `endif`. */
  lemma {:induction false} RunBranches<P>(stack: seq<BlockState>, b: BlockState, out: seq<P>,
                                          branches: Branches<P>, eval: string -> Verdict)
    requires b.kind != ELSE
    ensures var r := RunLines(Machine(stack + [b], out), BranchLines(branches), eval);
            if BrokenBranch(branches, eval) then r == Thrown
            else r.Ok? && |r.value.stack| == |stack| + 1 && r.value.stack[..|stack|] == stack
                 && r.value.out == Emit(out, b.parent && !b.matched, SelectBranch(branches, eval))
    decreases branches
  {
    var m := Machine(stack + [b], out);
    match branches
    case Close =>
    case OrIf(cond, body, more) =>
      RunAppend(m, [Elif(cond)] + Lines(body), BranchLines(more), eval);
      RunAppend(m, [Elif(cond)], Lines(body), eval);
      RunOne(m, Elif(cond), eval);
      if eval(cond) != Throws {
        var b' := AfterElif(b, eval(cond) == Yes);
        assert SetTop(stack + [b], b') == stack + [b'];
        RunDoc(stack + [b'], out, body, eval);
        RunBranches(stack, b', Emit(out, b'.render, Select(body, eval)), more, eval);
      }
    case Otherwise(body) =>
      RunAppend(m, [Else], Lines(body), eval);
      RunOne(m, Else, eval);
      var b' := AfterElse(b);
      assert SetTop(stack + [b], b') == stack + [b'];
      RunDoc(stack + [b'], out, body, eval);
  }

  /** For every well-nested document, the machine outputs exactly the document's
      selection, or throws exactly when some condition cannot be evaluated,
      whether or not its branch would have been reached. */
  lemma MachineMeansDocument<P>(doc: Doc<P>, eval: string -> Verdict)
    ensures RunLines(Machine([], []), Lines(doc), eval) ==
              if Broken(doc, eval) then Thrown else Ok(Machine([], Select(doc, eval)))
  {
    RunDoc([], [], doc, eval);
    assert [] + Select(doc, eval) == Select(doc, eval);
  }

  /** A broken condition inside a branch that is not taken: nothing is selected, yet it throws. */
  lemma BrokenButUnreached(eval: string -> Verdict)
    requires eval("no") == No && eval("broken") == Throws
    ensures var inner: Doc<string> := Block("broken", Nil, Close, Nil);
            var doc := Block("no", inner, Close, Nil);
            Select(doc, eval) == [] && RunLines(Machine([], []), Lines(doc), eval) == Thrown
  {
    var inner: Doc<string> := Block("broken", Nil, Close, Nil);
    MachineMeansDocument(Block("no", inner, Close, Nil), eval);
  }

  // --- Line by line --------------------------------------------------------------

  /** A text line with the decisions that lead to it, outermost first. */
  datatype Guarded<P> = Guarded(path: seq<(string, bool)>, payload: P)

  function Guards<P>(doc: Doc<P>, path: seq<(string, bool)>): seq<Guarded<P>> {
    match doc
    case Nil => []
    case Item(payload, rest) => [Guarded(path, payload)] + Guards(rest, path)
    case Block(cond, body, branches, rest) =>
      Guards(body, path + [(cond, true)]) + BranchGuards(branches, path + [(cond, false)]) + Guards(rest, path)
  }

  function BranchGuards<P>(branches: Branches<P>, path: seq<(string, bool)>): seq<Guarded<P>> {
    match branches
    case Close => []
    case OrIf(cond, body, more) =>
      Guards(body, path + [(cond, true)]) + BranchGuards(more, path + [(cond, false)])
    case Otherwise(body) => Guards(body, path)
  }

  /** Every decision on the path goes the way the path needs. */
  predicate Taken(path: seq<(string, bool)>, eval: string -> Verdict) {
    forall k :: 0 <= k < |path| ==> (eval(path[k].0) == Yes) == path[k].1
  }

  function Passing<P>(lines: seq<Guarded<P>>, eval: string -> Verdict): seq<P> {
    if lines == [] then []
    else (if Taken(lines[0].path, eval) then [lines[0].payload] else []) + Passing(lines[1..], eval)
  }

  lemma {:induction false} PassingAppend<P>(a: seq<Guarded<P>>, b: seq<Guarded<P>>, eval: string -> Verdict)
    ensures Passing(a + b, eval) == Passing(a, eval) + Passing(b, eval)
  {
    if a == [] {
      assert a + b == b;
    } else {
      assert (a + b)[1..] == a[1..] + b && (a + b)[0] == a[0];
      PassingAppend(a[1..], b, eval);
      var first := if Taken(a[0].path, eval) then [a[0].payload] else [];
      SeqAssoc(first, Passing(a[1..], eval), Passing(b, eval));
    }
  }

  lemma TakenSnoc(path: seq<(string, bool)>, cond: string, way: bool, eval: string -> Verdict)
    ensures Taken(path + [(cond, way)], eval) <==> Taken(path, eval) && (eval(cond) == Yes) == way
  {
    assert (path + [(cond, way)])[|path|] == (cond, way);
    assert forall k :: 0 <= k < |path| ==> (path + [(cond, way)])[k] == path[k];
  }

  /** A line is rendered if and only if every enclosing block chose its branch:
      the selection is the text lines whose path is taken, in order. */
  lemma {:induction false} RenderedIffTaken<P>(doc: Doc<P>, path: seq<(string, bool)>, eval: string -> Verdict)
    ensures Passing(Guards(doc, path), eval) == if Taken(path, eval) then Select(doc, eval) else []
    decreases doc
  {
    match doc
    case Nil =>
    case Item(payload, rest) =>
      RenderedIffTaken(rest, path, eval);
      assert ([Guarded(path, payload)] + Guards(rest, path))[1..] == Guards(rest, path);
    case Block(cond, body, branches, rest) =>
      TakenSnoc(path, cond, true, eval);
      TakenSnoc(path, cond, false, eval);
      RenderedIffTaken(body, path + [(cond, true)], eval);
      BranchRenderedIffTaken(branches, path + [(cond, false)], eval);
      RenderedIffTaken(rest, path, eval);
      var a, b := Guards(body, path + [(cond, true)]), BranchGuards(branches, path + [(cond, false)]);
      PassingAppend(a + b, Guards(rest, path), eval);
      PassingAppend(a, b, eval);
      NoneLeft(Select(body, eval));
      NoneLeft(SelectBranch(branches, eval));
  }

  lemma {:induction false} BranchRenderedIffTaken<P>(branches: Branches<P>, path: seq<(string, bool)>,
                                                   eval: string -> Verdict)
    ensures Passing(BranchGuards(branches, path), eval) ==
              if Taken(path, eval) then SelectBranch(branches, eval) else []
    decreases branches
  {
    match branches
    case Close =>
    case OrIf(cond, body, more) =>
      TakenSnoc(path, cond, true, eval);
      TakenSnoc(path, cond, false, eval);
      RenderedIffTaken(body, path + [(cond, true)], eval);
      BranchRenderedIffTaken(more, path + [(cond, false)], eval);
      PassingAppend(Guards(body, path + [(cond, true)]), BranchGuards(more, path + [(cond, false)]), eval);
      NoneLeft(Select(body, eval));
      NoneLeft(SelectBranch(more, eval));
    case Otherwise(body) =>
      RenderedIffTaken(body, path, eval);
  }
}
