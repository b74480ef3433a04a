/** Reading a script template: variables, then conditionals, then includes, each
    included file being read the same way.  Scripts are tokenised: what the
    source finds with regular expressions are pieces and classified lines here,
    and substituted values are plain text. */
module ScriptReader {
  import opened SeqFacts
  import opened Conditionals

  datatype Piece = Str(text: string) | Var(key: string) | Include(dir: seq<string>, name: string)

  datatype Path = Path(dir: seq<string>, name: string)

  type File = seq<Line<seq<Piece>>>

  /** The file system, the data dictionary as text, and the conditions' values. */
  datatype World = World(files: map<Path, File>, data: map<string, string>, eval: string -> Verdict)

  const NEWLINE: seq<Piece> := [Str("\n")]

  // --- Variables -----------------------------------------------------------------

  predicate Known(pieces: seq<Piece>, data: map<string, string>) {
    forall k :: 0 <= k < |pieces| && pieces[k].Var? ==> pieces[k].key in data
  }

  predicate NoVars(pieces: seq<Piece>) {
    forall k :: 0 <= k < |pieces| ==> !pieces[k].Var?
  }

  /** Every variable replaced by its value. */
  function Substitute(pieces: seq<Piece>, data: map<string, string>): (r: seq<Piece>)
    requires Known(pieces, data)
    ensures |r| == |pieces| && NoVars(r)
    ensures forall k :: 0 <= k < |r| && !pieces[k].Var? ==> r[k] == pieces[k]
    ensures forall k :: 0 <= k < |r| && pieces[k].Var? ==> r[k] == Str(data[pieces[k].key])
  {
    if pieces == [] then []
    else [if pieces[0].Var? then Str(data[pieces[0].key]) else pieces[0]] + Substitute(pieces[1..], data)
  }

  function VarCount(pieces: seq<Piece>): nat {
    if pieces == [] then 0 else (if pieces[0].Var? then 1 else 0) + VarCount(pieces[1..])
  }

  lemma {:induction false} VarCountDrops(pieces: seq<Piece>, k: nat, text: string)
    requires k < |pieces| && pieces[k].Var?
    ensures VarCount(pieces[k := Str(text)]) == VarCount(pieces) - 1
  {
    if k > 0 {
      VarCountDrops(pieces[1..], k - 1, text);
      assert pieces[k := Str(text)][1..] == pieces[1..][k - 1 := Str(text)];
    }
  }

  /** `replaceVariables`: as long as there is a variable, replace the first. */
  method ReplaceVariables(pieces: seq<Piece>, data: map<string, string>) returns (r: Result<seq<Piece>>)
    ensures r == if Known(pieces, data) then Ok(Substitute(pieces, data)) else Thrown
  {
    var script := pieces;
    while true
      invariant |script| == |pieces|
      invariant forall k :: 0 <= k < |script| ==>
                  script[k] == pieces[k]
                  || (pieces[k].Var? && pieces[k].key in data && script[k] == Str(data[pieces[k].key]))
      decreases VarCount(script)
    {
      var k := 0;
      while k < |script| && !script[k].Var?
        invariant 0 <= k <= |script|
        invariant forall j :: 0 <= j < k ==> !script[j].Var?
      {
        k := k + 1;
      }
      if k == |script| {
        assert Known(pieces, data);
        assert script == Substitute(pieces, data);
        return Ok(script);
      }
      if script[k].key !in data {
        return Thrown;
      }
      VarCountDrops(script, k, data[script[k].key]);
      script := script[k := Str(data[script[k].key])];
    }
  }

  predicate FileKnown(file: File, data: map<string, string>) {
    forall i :: 0 <= i < |file| && file[i].Text? ==> Known(file[i].payload, data)
  }

  function SubstituteLine(line: Line<seq<Piece>>, data: map<string, string>): Line<seq<Piece>>
    requires line.Text? ==> Known(line.payload, data)
  {
    match line
    case Text(payload) => Text(Substitute(payload, data))
    case If(cond) => If(cond)
    case Elif(cond) => Elif(cond)
    case Else => Else
    case Endif => Endif
  }

  function SubstituteFile(file: File, data: map<string, string>): (r: File)
    requires FileKnown(file, data)
    ensures |r| == |file| && forall i :: 0 <= i < |r| ==> r[i] == SubstituteLine(file[i], data)
  {
    if file == [] then [] else [SubstituteLine(file[0], data)] + SubstituteFile(file[1..], data)
  }

  // --- What the code computes -------------------------------------------------------

  /** Text produced or exception, the folder later includes are taken from, and the files
      opened; `deep` if includes were nested deeper than the outcome was asked to follow. */
  datatype Outcome = Outcome(result: Result<string>, dir: seq<string>, visited: seq<Path>, deep: bool)

  /** One outcome followed, unless it threw, by another. */
  function Then(a: Outcome, b: Outcome): Outcome {
    if a.result.Thrown? then a
    else
      Outcome(if b.result.Thrown? then Thrown else Ok(a.result.value + b.result.value),
              b.dir, a.visited + b.visited, b.deep)
  }

  /** Text without any file opened. */
  function Plainly(text: string, dir: seq<string>): Outcome { Outcome(Ok(text), dir, [], false) }

  /** What the conditionals leave are lines of the file. */
  lemma {:induction false} RunKeeps(m: Machine<seq<Piece>>, lines: File, eval: string -> Verdict,
                                     good: seq<Piece> -> bool)
    requires forall i :: 0 <= i < |m.out| ==> good(m.out[i])
    requires forall i :: 0 <= i < |lines| && lines[i].Text? ==> good(lines[i].payload)
    ensures var r := RunLines(m, lines, eval);
            r.Ok? ==> forall i :: 0 <= i < |r.value.out| ==> good(r.value.out[i])
    decreases |lines|
  {
    if lines != [] {
      match StepLine(m, lines[0], eval)
      case Ok(m') => RunKeeps(m', lines[1..], eval, good);
      case Thrown =>
    }
  }

  lemma {:induction false} JoinNoVars(lines: seq<seq<Piece>>)
    requires forall i :: 0 <= i < |lines| ==> NoVars(lines[i])
    ensures NoVars(Join(lines, NEWLINE))
  {
    if |lines| > 1 {
      JoinNoVars(lines[..|lines| - 1]);
    }
  }

  /** The pieces of a file once variables and conditionals are replaced. */
  function Rendered(w: World, file: File): (r: Result<seq<Piece>>)
    ensures r.Ok? ==> NoVars(r.value)
  {
    if !FileKnown(file, w.data) then Thrown
    else
      var lines := SubstituteFile(file, w.data);
      RunKeeps(Machine([], []), lines, w.eval, line => NoVars(line));
      match RunLines(Machine([], []), lines, w.eval)
      case Thrown => Thrown
      case Ok(m) => JoinNoVars(m.out); Ok(Join(m.out, NEWLINE))
  }

  /** Where an include leads from a folder. */
  function Target(dir: seq<string>, piece: Piece): Path
    requires piece.Include?
  {
    Path(dir + piece.dir, piece.name)
  }

  /** `readScriptFile`, with files nested at most `depth` deep in the one read: the path being
      read is remembered and not restored, so an include is looked up next to the file read last. */
  function Read(w: World, depth: nat, path: Path): (o: Outcome)
    ensures o.visited != [] && o.visited[0] == path
    ensures o.deep ==> o.result.Thrown?
    decreases depth, 0, 0
  {
    var open := Outcome(Ok(""), path.dir, [path], false);
    if path !in w.files then open.(result := Thrown)
    else match Rendered(w, w.files[path])
      case Thrown => open.(result := Thrown)
      case Ok(pieces) =>
        if depth == 0 then open.(result := Thrown, deep := true)
        else Then(open, Expand(w, depth - 1, path.dir, pieces))
  }

  /** Includes replaced from left to right, starting from folder `dir`. */
  function Expand(w: World, depth: nat, dir: seq<string>, pieces: seq<Piece>): (o: Outcome)
    requires NoVars(pieces)
    ensures o.deep ==> o.result.Thrown?
    decreases depth, 2, |pieces|
  {
    if pieces == [] then Plainly("", dir)
    else
      var first := ExpandOne(w, depth, dir, pieces[0]);
      Then(first, Expand(w, depth, first.dir, pieces[1..]))
  }

  function ExpandOne(w: World, depth: nat, dir: seq<string>, piece: Piece): (o: Outcome)
    requires !piece.Var?
    ensures o.deep ==> o.result.Thrown?
    decreases depth, 1, 0
  {
    match piece
    case Str(text) => Plainly(text, dir)
    case Include(_, _) => Read(w, depth, Target(dir, piece))
  }

  lemma ThenUnit(o: Outcome, dir: seq<string>)
    ensures Then(Plainly("", dir), o) == o
  {
    assert [] + o.visited == o.visited;
    if o.result.Ok? {
      assert "" + o.result.value == o.result.value;
    }
  }

  lemma ThenNothing(o: Outcome)
    requires !o.deep
    ensures Then(o, Plainly("", o.dir)) == o
  {
    assert o.visited + [] == o.visited;
    if o.result.Ok? {
      assert o.result.value + "" == o.result.value;
    }
  }

  lemma ThenAssoc(a: Outcome, b: Outcome, c: Outcome)
    ensures Then(Then(a, b), c) == Then(a, Then(b, c))
  {
    assert (a.visited + b.visited) + c.visited == a.visited + (b.visited + c.visited);
    if a.result.Ok? && b.result.Ok? && c.result.Ok? {
      assert (a.result.value + b.result.value) + c.result.value == a.result.value + (b.result.value + c.result.value);
    }
  }

  method ReplaceAllVariables(file: File, data: map<string, string>) returns (r: Result<File>)
    ensures r == if FileKnown(file, data) then Ok(SubstituteFile(file, data)) else Thrown
  {
    var lines: File := [];
    for i := 0 to |file|
      invariant |lines| == i
      invariant forall j :: 0 <= j < i ==> file[j].Text? ==> Known(file[j].payload, data)
      invariant forall j :: 0 <= j < i ==> lines[j] == SubstituteLine(file[j], data)
    {
      var line := file[i];
      if line.Text? {
        var replaced := ReplaceVariables(line.payload, data);
        if replaced.Thrown? {
          return Thrown;
        }
        line := Text(replaced.value);
      }
      lines := lines + [line];
    }
    assert lines == SubstituteFile(file, data);
    return Ok(lines);
  }

  // --- The loop of the source ----------------------------------------------------

  class Reader {
    var dir: seq<string>          // folder of script_path_
    ghost var visited: seq<Path>  // files opened so far

    constructor ()
      ensures dir == [] && visited == []
    {
      dir, visited := [], [];
    }

    /** `readScriptFile`, on every script whose includes do not nest for ever. */
    method ReadScriptFile(w: World, ghost depth: nat, path: Path) returns (r: Result<string>)
      requires !Read(w, depth, path).deep
      modifies this
      ensures var o := Read(w, depth, path);
              r == o.result && dir == o.dir && visited == old(visited) + o.visited
      decreases depth, 0, 0
    {
      dir := path.dir;
      visited := visited + [path];
      if path !in w.files {
        return Thrown;
      }
      var script := PrepareScript(w, w.files[path]);
      if script.Thrown? {
        return Thrown;
      }
      ghost var rest := Expand(w, depth - 1, path.dir, script.value);
      r := ReplaceIncludes(w, depth - 1, script.value);
      SeqAssoc(old(visited), [path], rest.visited);
      if r.Ok? {
        assert "" + r.value == r.value;
      }
    }

    /** Variables in every line, then conditionals. */
    method PrepareScript(w: World, file: File) returns (r: Result<seq<Piece>>)
      ensures r == Rendered(w, file)
    {
      var lines := ReplaceAllVariables(file, w.data);
      if lines.Thrown? {
        return Thrown;
      }
      r := ReplaceConditionals(lines.value, NEWLINE, w.eval);
    }

    /** `replaceIncludes`: as long as there is an include, read the first one's
        file and splice its text in. */
    method ReplaceIncludes(w: World, ghost depth: nat, pieces: seq<Piece>) returns (r: Result<string>)
      requires NoVars(pieces) && !Expand(w, depth, dir, pieces).deep
      modifies this
      ensures var o := Expand(w, depth, old(dir), pieces);
              r == o.result && dir == o.dir && visited == old(visited) + o.visited
      decreases depth, 2, |pieces|
    {
      hide Read, Expand;
      var script := pieces;
      ghost var total := Expand(w, depth, dir, pieces);
      ghost var seen: seq<Path> := [];
      ThenUnit(total, dir);
      var k := 0;
      assert script[0..] == script && Plain(script[..0]) == "";
      while k < |script|
        invariant 0 <= k <= |script| && |script| == |pieces|
        invariant NoVars(script)
        invariant forall j :: 0 <= j < k ==> script[j].Str?
        invariant visited == old(visited) + seen
        invariant total == Then(Outcome(Ok(Plain(script[..k])), dir, seen, false), Expand(w, depth, dir, script[k..]))
      {
        ghost var first := ExpandOne(w, depth, dir, script[k]);
        NoneLeft(visited);
        SpliceOne(w, depth, dir, script, k, seen);
        SeqAssoc(old(visited), seen, first.visited);
        seen := seen + first.visited;
        if script[k].Include? {
          var content := ReadScriptFile(w, depth, Target(dir, script[k]));
          if content.Thrown? {
            return Thrown;
          }
          script := script[k := Str(content.value)];
        } else {
          assert script[k := script[k]] == script;
        }
        k := k + 1;
      }
      assert script[k..] == [] && script[..k] == script;
      ExpandNothing(w, depth, dir);
      ThenNothing(Outcome(Ok(Plain(script)), dir, seen, false));
      r := Ok(Plain(script));
    }
  }

  lemma ExpandNothing(w: World, depth: nat, dir: seq<string>)
    ensures Expand(w, depth, dir, []) == Plainly("", dir)
  {
  }

  /** Replacing piece `k` by what it expands to moves it to the finished part. */
  lemma SpliceOne(w: World, depth: nat, dir: seq<string>, script: seq<Piece>, k: nat, seen: seq<Path>)
    requires NoVars(script)
    requires k < |script| && forall j :: 0 <= j < k ==> script[j].Str?
    ensures var left := Outcome(Ok(Plain(script[..k])), dir, seen, false);
            var first := ExpandOne(w, depth, dir, script[k]);
            var total := Then(left, Expand(w, depth, dir, script[k..]));
            if first.result.Thrown? then total == Outcome(Thrown, first.dir, seen + first.visited, first.deep)
            else
              var script' := script[k := Str(first.result.value)];
              NoVars(script') &&
              total == Then(Outcome(Ok(Plain(script'[..k + 1])), first.dir, seen + first.visited, first.deep),
                            Expand(w, depth, first.dir, script'[k + 1..])) && !first.deep
  {
    assert script[k..][0] == script[k] && script[k..][1..] == script[k + 1..];
    var left := Outcome(Ok(Plain(script[..k])), dir, seen, false);
    var first := ExpandOne(w, depth, dir, script[k]);
    ThenAssoc(left, first, Expand(w, depth, first.dir, script[k + 1..]));
    if first.result.Ok? {
      var script' := script[k := Str(first.result.value)];
      assert script'[k + 1..] == script[k + 1..] && script'[..k] == script[..k];
      PlainSnoc(script', k);
    }
  }

  function Plain(pieces: seq<Piece>): string
    requires forall j :: 0 <= j < |pieces| ==> pieces[j].Str?
  {
    if pieces == [] then "" else Plain(pieces[..|pieces| - 1]) + pieces[|pieces| - 1].text
  }

  lemma PlainSnoc(pieces: seq<Piece>, k: nat)
    requires k < |pieces| && forall j :: 0 <= j <= k ==> pieces[j].Str?
    ensures Plain(pieces[..k + 1]) == Plain(pieces[..k]) + pieces[k].text
  {
    assert pieces[..k + 1][..k] == pieces[..k];
  }

  // --- What a template means ---------------------------------------------------------

  /** A template collection given as well-nested documents. */
  datatype Library = Library(docs: map<Path, Doc<seq<Piece>>>, data: map<string, string>, eval: string -> Verdict) {
    function Written(): World {
      World(map p | p in docs :: Lines(docs[p]), data, eval)
    }
  }

  /** Every variable mentioned in the document, rendered or not, has a value. */
  predicate DocKnown(doc: Doc<seq<Piece>>, data: map<string, string>) { FileKnown(Lines(doc), data) }

  predicate AllKnown(lines: seq<seq<Piece>>, data: map<string, string>) {
    forall i :: 0 <= i < |lines| ==> Known(lines[i], data)
  }

  /** Recursive in-order inlining, every include taken from folder `root`: the lines a document
      selects, with values for variables and rendered files for includes. */
  function Meaning(lib: Library, depth: nat, root: seq<string>, path: Path): (o: Outcome)
    ensures o.visited != [] && o.visited[0] == path
    ensures o.deep ==> o.result.Thrown?
    decreases depth, 0, 0
  {
    if path !in lib.docs || !DocKnown(lib.docs[path], lib.data) || Broken(lib.docs[path], lib.eval)
    then Outcome(Thrown, root, [path], false)
    else if depth == 0 then Outcome(Thrown, root, [path], true)
    else
      SelectKnown(lib.docs[path], lib.eval, lib.data);
      Then(Outcome(Ok(""), root, [path], false), LinesMeaning(lib, depth - 1, root, Select(lib.docs[path], lib.eval)))
  }

  function LinesMeaning(lib: Library, depth: nat, root: seq<string>, lines: seq<seq<Piece>>): (o: Outcome)
    requires AllKnown(lines, lib.data)
    ensures o.deep ==> o.result.Thrown?
    decreases depth, 3, |lines|
  {
    if lines == [] then Plainly("", root)
    else
      var last := LineMeaning(lib, depth, root, lines[|lines| - 1]);
      if |lines| == 1 then last
      else Then(Then(LinesMeaning(lib, depth, root, lines[..|lines| - 1]), Plainly("\n", root)), last)
  }

  function LineMeaning(lib: Library, depth: nat, root: seq<string>, line: seq<Piece>): (o: Outcome)
    requires Known(line, lib.data)
    ensures o.deep ==> o.result.Thrown?
    decreases depth, 2, |line|
  {
    if line == [] then Plainly("", root)
    else Then(PieceMeaning(lib, depth, root, line[0]), LineMeaning(lib, depth, root, line[1..]))
  }

  function PieceMeaning(lib: Library, depth: nat, root: seq<string>, piece: Piece): (o: Outcome)
    requires piece.Var? ==> piece.key in lib.data
    ensures o.deep ==> o.result.Thrown?
    decreases depth, 1, 0
  {
    match piece
    case Str(text) => Plainly(text, root)
    case Var(key) => Plainly(lib.data[key], root)
    case Include(_, _) => Meaning(lib, depth, root, Target(root, piece))
  }

  /** Selected lines are lines of the document. */
  lemma SelectKnown(doc: Doc<seq<Piece>>, eval: string -> Verdict, data: map<string, string>)
    requires DocKnown(doc, data) && !Broken(doc, eval)
    ensures AllKnown(Select(doc, eval), data)
  {
    MachineMeansDocument(doc, eval);
    RunKeeps(Machine([], []), Lines(doc), eval, line => Known(line, data));
  }

  // --- Lines are the pieces they are joined from ---------------------------------------

  function SubstituteLines(lines: seq<seq<Piece>>, data: map<string, string>): (r: seq<seq<Piece>>)
    requires AllKnown(lines, data)
    ensures |r| == |lines| && forall i :: 0 <= i < |r| ==> r[i] == Substitute(lines[i], data)
  {
    seq(|lines|, i requires 0 <= i < |lines| => Substitute(lines[i], data))
  }

  /** Substituting before or after the conditionals makes no difference. */
  lemma {:induction false} ConditionalsCommute(m: Machine<seq<Piece>>, lines: File, eval: string -> Verdict,
                                                 data: map<string, string>)
    requires AllKnown(m.out, data) && FileKnown(lines, data)
    ensures var r := RunLines(m, lines, eval);
            var r' := RunLines(Machine(m.stack, SubstituteLines(m.out, data)), SubstituteFile(lines, data), eval);
            if r.Thrown? then r' == Thrown
            else AllKnown(r.value.out, data) && r' == Ok(Machine(r.value.stack, SubstituteLines(r.value.out, data)))
    decreases |lines|
  {
    if lines != [] {
      assert SubstituteFile(lines, data)[1..] == SubstituteFile(lines[1..], data);
      StepCommutes(m, lines[0], eval, data);
      match StepLine(m, lines[0], eval)
      case Ok(m') => ConditionalsCommute(m', lines[1..], eval, data);
      case Thrown =>
    }
  }

  lemma StepCommutes(m: Machine<seq<Piece>>, line: Line<seq<Piece>>, eval: string -> Verdict, data: map<string, string>)
    requires AllKnown(m.out, data)
    requires line.Text? ==> Known(line.payload, data)
    ensures var r := StepLine(m, line, eval);
            var r' := StepLine(Machine(m.stack, SubstituteLines(m.out, data)), SubstituteLine(line, data), eval);
            if r.Thrown? then r' == Thrown
            else AllKnown(r.value.out, data) && r' == Ok(Machine(r.value.stack, SubstituteLines(r.value.out, data)))
  {
    if line.Text? {
      assert SubstituteLines(m.out + [line.payload], data)
          == SubstituteLines(m.out, data) + [Substitute(line.payload, data)];
    }
  }

  /** What the code expands of a document are the lines it selects. */
  lemma RenderedSelects(lib: Library, doc: Doc<seq<Piece>>)
    ensures var r := Rendered(lib.Written(), Lines(doc));
            if !DocKnown(doc, lib.data) || Broken(doc, lib.eval) then r == Thrown
            else AllKnown(Select(doc, lib.eval), lib.data)
                 && r == Ok(Join(SubstituteLines(Select(doc, lib.eval), lib.data), NEWLINE))
  {
    if DocKnown(doc, lib.data) {
      MachineMeansDocument(doc, lib.eval);
      ConditionalsCommute(Machine([], []), Lines(doc), lib.eval, lib.data);
      assert SubstituteLines([], lib.data) == [];
    }
  }

  lemma {:induction false} LineAppend(lib: Library, depth: nat, root: seq<string>, a: seq<Piece>, b: seq<Piece>)
    requires Known(a, lib.data) && Known(b, lib.data)
    ensures Known(a + b, lib.data)
    ensures LineMeaning(lib, depth, root, a + b)
         == Then(LineMeaning(lib, depth, root, a), LineMeaning(lib, depth, root, b))
    decreases |a|
  {
    if a == [] {
      assert a + b == b;
      ThenUnit(LineMeaning(lib, depth, root, b), root);
    } else {
      assert (a + b)[0] == a[0] && (a + b)[1..] == a[1..] + b;
      LineAppend(lib, depth, root, a[1..], b);
      ThenAssoc(PieceMeaning(lib, depth, root, a[0]), LineMeaning(lib, depth, root, a[1..]),
                LineMeaning(lib, depth, root, b));
    }
  }

  lemma {:induction false} LineSubstituted(lib: Library, depth: nat, root: seq<string>, line: seq<Piece>)
    requires Known(line, lib.data)
    ensures LineMeaning(lib, depth, root, Substitute(line, lib.data)) == LineMeaning(lib, depth, root, line)
    decreases |line|
  {
    if line != [] {
      assert Substitute(line, lib.data)[1..] == Substitute(line[1..], lib.data);
      LineSubstituted(lib, depth, root, line[1..]);
    }
  }

  lemma {:induction false} LinesJoined(lib: Library, depth: nat, root: seq<string>, lines: seq<seq<Piece>>)
    requires AllKnown(lines, lib.data)
    ensures var joined := Join(SubstituteLines(lines, lib.data), NEWLINE);
            NoVars(joined) && LineMeaning(lib, depth, root, joined) == LinesMeaning(lib, depth, root, lines)
    decreases |lines|
  {
    var sub, n := SubstituteLines(lines, lib.data), |lines| - 1;
    JoinNoVars(sub);
    if |lines| > 0 {
      LineSubstituted(lib, depth, root, lines[n]);
    }
    if |lines| > 1 {
      LinesJoined(lib, depth, root, lines[..n]);
      assert sub[..n] == SubstituteLines(lines[..n], lib.data);
      var init := Join(sub[..n], NEWLINE);
      assert NEWLINE[1..] == [];
      ThenNothing(Plainly("\n", root));
      LineAppend(lib, depth, root, init, NEWLINE);
      LineAppend(lib, depth, root, init + NEWLINE, sub[n]);
    }
  }

  // --- Where the code looks and where the documentation says -----------------------------

  /** Every file opened but the last lies in `root` itself. */
  predicate Stays(visited: seq<Path>, root: seq<string>) {
    forall i :: 0 <= i < |visited| - 1 ==> visited[i].dir == root
  }

  function LastDir(visited: seq<Path>, root: seq<string>): seq<string> {
    if visited == [] then root else visited[|visited| - 1].dir
  }

  predicate Diverge(a: seq<Path>, b: seq<Path>) {
    exists j :: 0 <= j < |a| && j < |b| && a[j] != b[j]
  }

  /** An outcome `o` of the code against the documented `d`: equal, with the last file's folder
      remembered, as long as only the last file opened may lie elsewhere; otherwise some file
      is not the documented one. */
  predicate Agree(o: Outcome, d: Outcome, root: seq<string>) {
    if Stays(d.visited, root) then
      o.result == d.result && o.deep == d.deep && o.visited == d.visited && o.dir == LastDir(d.visited, root)
    else Diverge(o.visited, d.visited)
  }

  /** The same from a folder that is not `root`: the very first file opened is a wrong one. */
  predicate Strayed(o: Outcome, d: Outcome, dir: seq<string>) {
    if d.visited == [] then o.result == d.result && o.deep == d.deep && o.visited == [] && o.dir == dir
    else o.visited != [] && o.visited[0] != d.visited[0]
  }

  lemma DivergeFurther(a: seq<Path>, b: seq<Path>, c: seq<Path>, d: seq<Path>)
    requires Diverge(a, b)
    ensures Diverge(a + c, b + d) && Diverge(a, b + d) && Diverge(a + c, b)
  {
    var j :| 0 <= j < |a| && j < |b| && a[j] != b[j];
    assert (a + c)[j] == a[j] && (b + d)[j] == b[j];
  }

  lemma DivergeLater(a: seq<Path>, b: seq<Path>, c: seq<Path>)
    requires Diverge(b, c)
    ensures Diverge(a + b, a + c)
  {
    var j :| 0 <= j < |b| && j < |c| && b[j] != c[j];
    assert (a + b)[|a| + j] != (a + c)[|a| + j];
  }

  lemma StaysSplit(a: seq<Path>, b: seq<Path>, root: seq<string>)
    ensures Stays(a + b, root) <==> Stays(a, root) && Stays(b, root) && (b == [] || LastDir(a, root) == root)
  {
    var c := a + b;
    assert forall i :: 0 <= i < |a| ==> c[i] == a[i];
    assert forall i :: |a| <= i < |c| ==> c[i] == b[i - |a|];
    if Stays(c, root) {
      forall i | 0 <= i < |b| - 1 ensures b[i].dir == root {
        assert c[|a| + i] == b[i];
      }
    }
  }

  lemma AgreeThen(a: Outcome, a': Outcome, b: Outcome, b': Outcome, root: seq<string>)
    requires Agree(a, a', root)
    requires a'.result.Ok? && Stays(a'.visited, root) ==>
               if a.dir == root then Agree(b, b', root) else Strayed(b, b', a.dir)
    ensures Agree(Then(a, b), Then(a', b'), root)
  {
    StaysSplit(a'.visited, b'.visited, root);
    if !Stays(a'.visited, root) {
      DivergeFurther(a.visited, a'.visited, b.visited, b'.visited);
    } else if a'.result.Ok? {
      if a.dir == root {
        if !Stays(b'.visited, root) {
          DivergeLater(a.visited, b.visited, b'.visited);
        }
      } else if b'.visited == [] {
        assert a.visited + [] == a.visited;
      } else {
        assert Diverge(b.visited, b'.visited);
        DivergeLater(a.visited, b.visited, b'.visited);
      }
    }
  }

  lemma {:induction false} PiecesStray(lib: Library, depth: nat, root: seq<string>, dir: seq<string>,
                                        pieces: seq<Piece>)
    requires NoVars(pieces) && dir != root
    ensures Strayed(Expand(lib.Written(), depth, dir, pieces), LineMeaning(lib, depth, root, pieces), dir)
    decreases |pieces|
  {
    if pieces != [] {
      if pieces[0].Include? {
        Cancel(dir, root, pieces[0].dir);
        hide Read, Meaning;
        var w := lib.Written();
        var first, first' := ExpandOne(w, depth, dir, pieces[0]), PieceMeaning(lib, depth, root, pieces[0]);
        ThenFirst(first, Expand(w, depth, first.dir, pieces[1..]));
        ThenFirst(first', LineMeaning(lib, depth, root, pieces[1..]));
      } else {
        PiecesStray(lib, depth, root, dir, pieces[1..]);
      }
    }
  }

  lemma ThenFirst(a: Outcome, b: Outcome)
    requires a.visited != []
    ensures Then(a, b).visited != [] && Then(a, b).visited[0] == a.visited[0]
  {
  }

  lemma Cancel(a: seq<string>, b: seq<string>, c: seq<string>)
    ensures a + c == b + c ==> a == b
  {
    if a + c == b + c {
      assert |a| == |b|;
      assert a == (a + c)[..|a|] == (b + c)[..|b|] == b;
    }
  }

  lemma {:induction false} PiecesAgree(lib: Library, depth: nat, root: seq<string>, pieces: seq<Piece>)
    requires NoVars(pieces)
    ensures Agree(Expand(lib.Written(), depth, root, pieces), LineMeaning(lib, depth, root, pieces), root)
    decreases depth, 1, |pieces|
  {
    if pieces != [] {
      var w := lib.Written();
      var first, first' := ExpandOne(w, depth, root, pieces[0]), PieceMeaning(lib, depth, root, pieces[0]);
      if pieces[0].Include? {
        FileAgrees(lib, depth, root, Target(root, pieces[0]));
      }
      if first.dir == root {
        PiecesAgree(lib, depth, root, pieces[1..]);
      } else {
        PiecesStray(lib, depth, root, first.dir, pieces[1..]);
      }
      AgreeThen(first, first', Expand(w, depth, first.dir, pieces[1..]),
                LineMeaning(lib, depth, root, pieces[1..]), root);
    }
  }

  /** A file opened and nothing else. */
  lemma Opened(path: Path, root: seq<string>, result: Result<string>, deep: bool)
    ensures Agree(Outcome(result, path.dir, [path], deep), Outcome(result, root, [path], deep), root)
  {
  }

  lemma {:induction false} FileAgrees(lib: Library, depth: nat, root: seq<string>, path: Path)
    ensures Agree(Read(lib.Written(), depth, path), Meaning(lib, depth, root, path), root)
    decreases depth, 0, 0
  {
    hide Agree, Strayed, Expand, LinesMeaning, LineMeaning, Rendered, DocKnown, Broken, Select, Known;
    Opened(path, root, Ok(""), false);
    Opened(path, root, Thrown, false);
    Opened(path, root, Thrown, true);
    var w := lib.Written();
    if path in lib.docs {
      var doc := lib.docs[path];
      RenderedSelects(lib, doc);
      if DocKnown(doc, lib.data) && !Broken(doc, lib.eval) && depth > 0 {
        var lines := Select(doc, lib.eval);
        LinesJoined(lib, depth - 1, root, lines);
        var pieces := Join(SubstituteLines(lines, lib.data), NEWLINE);
        if path.dir == root {
          PiecesAgree(lib, depth - 1, root, pieces);
        } else {
          PiecesStray(lib, depth - 1, root, path.dir, pieces);
        }
        AgreeThen(Outcome(Ok(""), path.dir, [path], false), Outcome(Ok(""), root, [path], false),
                  Expand(w, depth - 1, path.dir, pieces), LinesMeaning(lib, depth - 1, root, lines), root);
      }
    }
  }

  /** For every library: reading a script is the recursive in-order inlining that the
      documentation promises, with the same text, exceptions and files opened, if and only if
      every file opened but the last lies in the root script's own folder. */
  lemma ReadIsMeaning(lib: Library, depth: nat, root: seq<string>, name: string)
    ensures var r, m := Read(lib.Written(), depth, Path(root, name)), Meaning(lib, depth, root, Path(root, name));
            r.result == m.result && r.visited == m.visited
            <==> forall i :: 0 <= i < |m.visited| - 1 ==> m.visited[i].dir == root
  {
    FileAgrees(lib, depth, root, Path(root, name));
    var m := Meaning(lib, depth, root, Path(root, name));
    assert Stays(m.visited, root) <==> forall i :: 0 <= i < |m.visited| - 1 ==> m.visited[i].dir == root;
  }

  /** A condition on the files alone: no include names a folder. */
  predicate SameFolder(pieces: seq<Piece>) {
    forall k :: 0 <= k < |pieces| && pieces[k].Include? ==> pieces[k].dir == []
  }

  predicate OneFolder(lib: Library) {
    forall p :: p in lib.docs ==>
      forall i :: 0 <= i < |Lines(lib.docs[p])| && Lines(lib.docs[p])[i].Text? ==>
        SameFolder(Lines(lib.docs[p])[i].payload)
  }

  predicate AllIn(visited: seq<Path>, root: seq<string>) { forall i :: 0 <= i < |visited| ==> visited[i].dir == root }

  /** Then every file opened lies in the root script's folder, and reading is as documented. */
  lemma OneFolderIsMeaning(lib: Library, depth: nat, root: seq<string>, name: string)
    requires OneFolder(lib)
    ensures var r, m := Read(lib.Written(), depth, Path(root, name)), Meaning(lib, depth, root, Path(root, name));
            r.result == m.result && r.visited == m.visited && AllIn(m.visited, root) && r.dir == root
  {
    OneFolderFile(lib, depth, root, name);
    FileAgrees(lib, depth, root, Path(root, name));
  }

  lemma {:induction false} OneFolderFile(lib: Library, depth: nat, root: seq<string>, name: string)
    requires OneFolder(lib)
    ensures AllIn(Meaning(lib, depth, root, Path(root, name)).visited, root)
    decreases depth, 0, 0
  {
    var path := Path(root, name);
    if path in lib.docs && DocKnown(lib.docs[path], lib.data) && !Broken(lib.docs[path], lib.eval) && depth > 0 {
      var doc := lib.docs[path];
      SelectKnown(doc, lib.eval, lib.data);
      MachineMeansDocument(doc, lib.eval);
      RunKeeps(Machine([], []), Lines(doc), lib.eval, line => SameFolder(line));
      OneFolderLines(lib, depth - 1, root, Select(doc, lib.eval));
    }
  }

  lemma {:induction false} OneFolderLines(lib: Library, depth: nat, root: seq<string>, lines: seq<seq<Piece>>)
    requires OneFolder(lib) && AllKnown(lines, lib.data) && forall i :: 0 <= i < |lines| ==> SameFolder(lines[i])
    ensures AllIn(LinesMeaning(lib, depth, root, lines).visited, root)
    decreases depth, 2, |lines|
  {
    if lines != [] {
      OneFolderLine(lib, depth, root, lines[|lines| - 1]);
      OneFolderLines(lib, depth, root, lines[..|lines| - 1]);
    }
  }

  lemma {:induction false} OneFolderLine(lib: Library, depth: nat, root: seq<string>, line: seq<Piece>)
    requires OneFolder(lib) && Known(line, lib.data) && SameFolder(line)
    ensures AllIn(LineMeaning(lib, depth, root, line).visited, root)
    decreases depth, 1, |line|
  {
    if line != [] {
      OneFolderLine(lib, depth, root, line[1..]);
      if line[0].Include? {
        assert root + [] == root;
        OneFolderFile(lib, depth, root, line[0].name);
      }
    }
  }

  /** The folder remembered after any expansion is that of the file opened last. */
  lemma {:induction false} FolderRemembered(w: World, depth: nat, dir: seq<string>, pieces: seq<Piece>)
    requires NoVars(pieces)
    ensures var o := Expand(w, depth, dir, pieces); o.dir == LastDir(o.visited, dir)
    decreases depth, 1, |pieces|
  {
    hide Read;
    if pieces != [] {
      var first := ExpandOne(w, depth, dir, pieces[0]);
      if pieces[0].Include? {
        FileRemembered(w, depth, Target(dir, pieces[0]));
      }
      FolderRemembered(w, depth, first.dir, pieces[1..]);
    }
  }

  lemma {:induction false} FileRemembered(w: World, depth: nat, path: Path)
    ensures var o := Read(w, depth, path); o.dir == LastDir(o.visited, path.dir)
    decreases depth, 0, 0
  {
    if path in w.files && Rendered(w, w.files[path]).Ok? && depth > 0 {
      FolderRemembered(w, depth - 1, path.dir, Rendered(w, w.files[path]).value);
    }
  }

  /** So it is still the one before if and only if nothing was opened or the last file lies there. */
  lemma FolderKeptIff(w: World, depth: nat, dir: seq<string>, pieces: seq<Piece>)
    requires NoVars(pieces)
    ensures var o := Expand(w, depth, dir, pieces);
            o.dir == dir <==> o.visited == [] || o.visited[|o.visited| - 1].dir == dir
  {
    hide Expand;
    FolderRemembered(w, depth, dir, pieces);
  }

  // --- A script that the documentation allows and the code fails on ------------------------

  /** A script that includes `lib/a` and then `b`, both there and holding one line of text. */
  predicate TwoIncludes(lib: Library) {
    && lib.docs.Keys == {Path([], "main"), Path(["lib"], "a"), Path([], "b")}
    && lib.docs[Path([], "main")] == Item([Include(["lib"], "a"), Include([], "b")], Nil)
    && lib.docs[Path(["lib"], "a")] == Item([Str("A")], Nil)
    && lib.docs[Path([], "b")] == Item([Str("B")], Nil)
  }

  lemma OneLine(lib: Library, line: seq<Piece>)
    requires NoVars(line)
    ensures var doc := Item(line, Nil);
            DocKnown(doc, lib.data) && !Broken(doc, lib.eval) && Select(doc, lib.eval) == [line]
    ensures Rendered(lib.Written(), Lines(Item(line, Nil))) == Ok(line)
  {
    var doc := Item(line, Nil);
    assert Lines(doc) == [Text(line)];
    RenderedSelects(lib, doc);
    assert Select(doc, lib.eval) == [line];
    assert Substitute(line, lib.data) == line;
    assert Join([line], NEWLINE) == line;
  }

  /** `b` is looked up in `lib` and missed, although it lies beside the script. */
  lemma SubfolderLosesRoot(lib: Library, depth: nat)
    requires TwoIncludes(lib) && depth >= 2
    ensures Meaning(lib, depth, [], Path([], "main")).result == Ok("AB")
    ensures Read(lib.Written(), depth, Path([], "main")).result == Thrown
  {
    var main := Path([], "main");
    MeantAB(lib, depth);
    var w, pieces := lib.Written(), [Include(["lib"], "a"), Include([], "b")];
    OneLine(lib, pieces);
    OneLine(lib, [Str("A")]);
    assert w.files[main] == Lines(Item(pieces, Nil)) && w.files[Path(["lib"], "a")] == Lines(Item([Str("A")], Nil));
    ReadMisses(w, depth - 1);
  }

  lemma ReadText(w: World, depth: nat, path: Path, text: string)
    requires path in w.files && Rendered(w, w.files[path]) == Ok([Str(text)]) && depth >= 1
    ensures Read(w, depth, path) == Outcome(Ok(text), path.dir, [path], false)
  {
    hide Rendered;
    assert [Str(text)][1..] == [];
    ThenNothing(Plainly(text, path.dir));
    assert Expand(w, depth - 1, path.dir, [Str(text)]) == Plainly(text, path.dir);
    assert "" + text == text && [path] + [] == [path];
  }

  lemma ReadMisses(w: World, depth: nat)
    requires depth >= 1 && Path(["lib"], "a") in w.files && Rendered(w, w.files[Path(["lib"], "a")]) == Ok([Str("A")])
    requires Path(["lib"], "b") !in w.files
    ensures Expand(w, depth, [], [Include(["lib"], "a"), Include([], "b")])
         == Outcome(Thrown, ["lib"], [Path(["lib"], "a"), Path(["lib"], "b")], false)
  {
    hide Rendered;
    var pieces, rest := [Include(["lib"], "a"), Include([], "b")], [Include([], "b")];
    assert pieces[1..] == rest;
    assert [] + ["lib"] == ["lib"] && ["lib"] + [] == ["lib"];
    ReadText(w, depth, Path(["lib"], "a"), "A");
    assert Target(["lib"], rest[0]) == Path(["lib"], "b");
    assert ExpandOne(w, depth, ["lib"], rest[0]) == Outcome(Thrown, ["lib"], [Path(["lib"], "b")], false);
    assert Expand(w, depth, ["lib"], rest) == Outcome(Thrown, ["lib"], [Path(["lib"], "b")], false);
    assert Target([], pieces[0]) == Path(["lib"], "a");
    assert [Path(["lib"], "a")] + [Path(["lib"], "b")] == [Path(["lib"], "a"), Path(["lib"], "b")];
  }

  lemma MeantText(lib: Library, depth: nat, path: Path, text: string)
    requires path in lib.docs && lib.docs[path] == Item([Str(text)], Nil) && depth >= 1
    ensures Meaning(lib, depth, [], path) == Outcome(Ok(text), [], [path], false)
  {
    var line := [Str(text)];
    OneLine(lib, line);
    hide DocKnown, Broken, Select, Lines;
    assert line[1..] == [];
    ThenNothing(Plainly(text, []));
    assert LineMeaning(lib, depth - 1, [], line) == Plainly(text, []);
    assert LinesMeaning(lib, depth - 1, [], [line]) == Plainly(text, []);
    assert "" + text == text && [path] + [] == [path];
  }

  lemma MeantAB(lib: Library, depth: nat)
    requires TwoIncludes(lib) && depth >= 2
    ensures Meaning(lib, depth, [], Path([], "main"))
         == Outcome(Ok("AB"), [], [Path([], "main"), Path(["lib"], "a"), Path([], "b")], false)
  {
    var pieces := [Include(["lib"], "a"), Include([], "b")];
    OneLine(lib, pieces);
    MeantLine(lib, depth - 1);
    hide DocKnown, Broken, Select, Lines, LineMeaning;
    var line := LineMeaning(lib, depth - 1, [], pieces);
    assert LinesMeaning(lib, depth - 1, [], [pieces]) == line;
    assert "" + "AB" == "AB";
    assert [Path([], "main")] + line.visited == [Path([], "main"), Path(["lib"], "a"), Path([], "b")];
  }

  lemma MeantLine(lib: Library, depth: nat)
    requires TwoIncludes(lib) && depth >= 1
    ensures LineMeaning(lib, depth, [], [Include(["lib"], "a"), Include([], "b")])
         == Outcome(Ok("AB"), [], [Path(["lib"], "a"), Path([], "b")], false)
  {
    hide Meaning;
    var pieces, rest := [Include(["lib"], "a"), Include([], "b")], [Include([], "b")];
    assert pieces[1..] == rest && rest[1..] == [];
    MeantText(lib, depth, Path(["lib"], "a"), "A");
    MeantText(lib, depth, Path([], "b"), "B");
    var here: seq<string> := [];
    assert here + ["lib"] == ["lib"] && here + [] == here;
    var last := Outcome(Ok("B"), [], [Path([], "b")], false);
    ThenNothing(last);
    assert PieceMeaning(lib, depth, [], rest[0]) == last;
    assert LineMeaning(lib, depth, [], rest) == last;
    assert "A" + "B" == "AB";
    assert [Path(["lib"], "a")] + [Path([], "b")] == [Path(["lib"], "a"), Path([], "b")];
  }

  // --- Moving a collection of scripts ------------------------------------------------------

  /** A path below another folder. */
  function Lift(top: seq<string>, p: Path): Path { Path(top + p.dir, p.name) }

  function LiftAll(top: seq<string>, paths: seq<Path>): (r: seq<Path>)
    ensures |r| == |paths| && forall i :: 0 <= i < |r| ==> r[i] == Lift(top, paths[i])
  {
    seq(|paths|, i requires 0 <= i < |paths| => Lift(top, paths[i]))
  }

  function LiftOutcome(top: seq<string>, o: Outcome): Outcome {
    o.(dir := top + o.dir, visited := LiftAll(top, o.visited))
  }

  /** `moved` holds under `top` what `w` holds. */
  ghost predicate Moved(w: World, moved: World, top: seq<string>) {
    && moved.data == w.data && moved.eval == w.eval
    && forall p: Path :: (Lift(top, p) in moved.files <==> p in w.files)
                         && (p in w.files ==> moved.files[Lift(top, p)] == w.files[p])
  }

  lemma LiftThen(top: seq<string>, a: Outcome, b: Outcome)
    ensures LiftOutcome(top, Then(a, b)) == Then(LiftOutcome(top, a), LiftOutcome(top, b))
  {
    assert LiftAll(top, a.visited + b.visited) == LiftAll(top, a.visited) + LiftAll(top, b.visited);
  }

  lemma RenderedAlike(w: World, moved: World, file: File)
    requires moved.data == w.data && moved.eval == w.eval
    ensures Rendered(moved, file) == Rendered(w, file)
  {
  }

  lemma LiftTarget(top: seq<string>, dir: seq<string>, piece: Piece)
    requires piece.Include?
    ensures Target(top + dir, piece) == Lift(top, Target(dir, piece))
  {
    SeqAssoc(top, dir, piece.dir);
  }

  /** Reading a script in a moved collection gives the same text and exceptions and opens the same
      files, in their new places. */
  lemma {:induction false} ReadMoves(w: World, moved: World, top: seq<string>, depth: nat, path: Path)
    requires Moved(w, moved, top)
    ensures Read(moved, depth, Lift(top, path)) == LiftOutcome(top, Read(w, depth, path))
    decreases depth, 0, 0
  {
    var to := Lift(top, path);
    assert LiftAll(top, [path]) == [to];
    if path in w.files {
      RenderedAlike(w, moved, w.files[path]);
      hide Rendered;
      if Rendered(w, w.files[path]).Ok? && depth > 0 {
        var pieces := Rendered(w, w.files[path]).value;
        ExpandMoves(w, moved, top, depth - 1, path.dir, pieces);
        LiftThen(top, Outcome(Ok(""), path.dir, [path], false), Expand(w, depth - 1, path.dir, pieces));
      }
    }
  }

  lemma {:induction false} ExpandMoves(w: World, moved: World, top: seq<string>, depth: nat,
                                       dir: seq<string>, pieces: seq<Piece>)
    requires Moved(w, moved, top) && NoVars(pieces)
    ensures Expand(moved, depth, top + dir, pieces) == LiftOutcome(top, Expand(w, depth, dir, pieces))
    decreases depth, 1, |pieces|
  {
    hide Moved, Read;
    if pieces == [] {
      assert LiftAll(top, []) == [];
    } else {
      var first := ExpandOne(w, depth, dir, pieces[0]);
      if pieces[0].Include? {
        LiftTarget(top, dir, pieces[0]);
        ReadMoves(w, moved, top, depth, Target(dir, pieces[0]));
      } else {
        assert LiftAll(top, []) == [];
      }
      ExpandMoves(w, moved, top, depth, first.dir, pieces[1..]);
      LiftThen(top, first, Expand(w, depth, first.dir, pieces[1..]));
    }
  }

  ghost predicate MovedLibrary(lib: Library, moved: Library, top: seq<string>) {
    && moved.data == lib.data && moved.eval == lib.eval
    && forall p: Path :: (Lift(top, p) in moved.docs <==> p in lib.docs)
                         && (p in lib.docs ==> moved.docs[Lift(top, p)] == lib.docs[p])
  }

  /** The same of the documented inlining, whose root moves along. */
  lemma {:induction false} MeaningMoves(lib: Library, moved: Library, top: seq<string>, depth: nat,
                                        root: seq<string>, path: Path)
    requires MovedLibrary(lib, moved, top)
    ensures Meaning(moved, depth, top + root, Lift(top, path)) == LiftOutcome(top, Meaning(lib, depth, root, path))
    decreases depth, 0, 0
  {
    hide LinesMeaning;
    var to := Lift(top, path);
    assert LiftAll(top, [path]) == [to];
    if path in lib.docs && DocKnown(lib.docs[path], lib.data) && !Broken(lib.docs[path], lib.eval) && depth > 0 {
      var doc := lib.docs[path];
      SelectKnown(doc, lib.eval, lib.data);
      var lines := Select(doc, lib.eval);
      LinesMove(lib, moved, top, depth - 1, root, lines);
      LiftThen(top, Outcome(Ok(""), root, [path], false), LinesMeaning(lib, depth - 1, root, lines));
    }
  }

  lemma {:induction false} LinesMove(lib: Library, moved: Library, top: seq<string>, depth: nat,
                                     root: seq<string>, lines: seq<seq<Piece>>)
    requires MovedLibrary(lib, moved, top) && AllKnown(lines, lib.data)
    ensures LinesMeaning(moved, depth, top + root, lines) == LiftOutcome(top, LinesMeaning(lib, depth, root, lines))
    decreases depth, 2, 0
  {
    hide LinesMeaning, LineMeaning;
    LinesJoined(lib, depth, root, lines);
    LinesJoined(moved, depth, top + root, lines);
    LineMoves(lib, moved, top, depth, root, Join(SubstituteLines(lines, lib.data), NEWLINE));
  }

  lemma {:induction false} LineMoves(lib: Library, moved: Library, top: seq<string>, depth: nat,
                                     root: seq<string>, line: seq<Piece>)
    requires MovedLibrary(lib, moved, top) && Known(line, lib.data)
    ensures LineMeaning(moved, depth, top + root, line) == LiftOutcome(top, LineMeaning(lib, depth, root, line))
    decreases depth, 1, |line|
  {
    hide MovedLibrary, Meaning;
    assert LiftAll(top, []) == [];
    assert moved.data == lib.data by {
      SameData(lib, moved, top);
    }
    if line != [] {
      if line[0].Include? {
        LiftTarget(top, root, line[0]);
        MeaningMoves(lib, moved, top, depth, root, Target(root, line[0]));
      }
      LineMoves(lib, moved, top, depth, root, line[1..]);
      LiftThen(top, PieceMeaning(lib, depth, root, line[0]), LineMeaning(lib, depth, root, line[1..]));
    }
  }

  lemma SameData(lib: Library, moved: Library, top: seq<string>)
    requires MovedLibrary(lib, moved, top)
    ensures moved.data == lib.data
  {
  }

  /** The two-include script in a folder `res`: documented to open res/lib/a and then res/b, it
      opens res/lib/a and then looks for res/lib/b. */
  lemma TwoIncludesMoved(lib: Library, moved: Library, depth: nat)
    requires TwoIncludes(lib) && MovedLibrary(lib, moved, ["res"]) && depth >= 2
    ensures Meaning(moved, depth, ["res"], Path(["res"], "main"))
         == Outcome(Ok("AB"), ["res"], [Path(["res"], "main"), Path(["res", "lib"], "a"), Path(["res"], "b")], false)
    ensures Read(moved.Written(), depth, Path(["res"], "main"))
         == Outcome(Thrown, ["res", "lib"],
                    [Path(["res"], "main"), Path(["res", "lib"], "a"), Path(["res", "lib"], "b")], false)
  {
    var top, main := ["res"], Path([], "main");
    assert top + [] == top && ["res"] + ["lib"] == ["res", "lib"];
    assert Lift(top, main) == Path(["res"], "main");
    MeantAB(lib, depth);
    MeaningMoves(lib, moved, top, depth, [], main);
    assert LiftAll(top, [main, Path(["lib"], "a"), Path([], "b")])
        == [Path(["res"], "main"), Path(["res", "lib"], "a"), Path(["res"], "b")];
    ReadAB(lib, depth);
    assert Moved(lib.Written(), moved.Written(), top);
    ReadMoves(lib.Written(), moved.Written(), top, depth, main);
    assert LiftAll(top, [main, Path(["lib"], "a"), Path(["lib"], "b")])
        == [Path(["res"], "main"), Path(["res", "lib"], "a"), Path(["res", "lib"], "b")];
  }

  /** What the code makes of the two-include script, file by file. */
  lemma ReadAB(lib: Library, depth: nat)
    requires TwoIncludes(lib) && depth >= 2
    ensures Read(lib.Written(), depth, Path([], "main"))
         == Outcome(Thrown, ["lib"], [Path([], "main"), Path(["lib"], "a"), Path(["lib"], "b")], false)
  {
    hide Rendered, Expand, Lines;
    var w, main, pieces := lib.Written(), Path([], "main"), [Include(["lib"], "a"), Include([], "b")];
    OneLine(lib, pieces);
    OneLine(lib, [Str("A")]);
    assert w.files[main] == Lines(Item(pieces, Nil)) && w.files[Path(["lib"], "a")] == Lines(Item([Str("A")], Nil));
    ReadMisses(w, depth - 1);
    assert [main] + [Path(["lib"], "a"), Path(["lib"], "b")] == [main, Path(["lib"], "a"), Path(["lib"], "b")];
  }

  // --- How deep includes nest ------------------------------------------------------------

  /** What file `p` renders to includes, looked up from folder `d`, the file `t`. */
  predicate Includes(w: World, p: Path, d: seq<string>, t: Path) {
    && p in w.files && t in w.files && Rendered(w, w.files[p]).Ok?
    && var pieces := Rendered(w, w.files[p]).value;
       exists k :: 0 <= k < |pieces| && pieces[k].Include? && Target(d, pieces[k]) == t
  }

  /** `from(p, d)` covers the folders `d` that may be remembered while the includes of `p` are
      replaced: its own folder at first, and then whatever an included file leaves. */
  ghost predicate Covers(w: World, from: (Path, seq<string>) -> bool) {
    && (forall p :: p in w.files ==> from(p, p.dir))
    && (forall p, d, t, d' :: Includes(w, p, d, t) && from(p, d) && from(t, d') ==> from(p, d'))
  }

  /** No file includes itself, directly or through others: `rank` falls along every include that
      is rendered and that a lookup can follow. */
  ghost predicate Acyclic(w: World, from: (Path, seq<string>) -> bool, rank: Path -> nat) {
    forall p, d, t :: Includes(w, p, d, t) && from(p, d) ==> rank(t) < rank(p)
  }

  /** Reading ends on files that include each other without a cycle, looked up where the code
      looks them up. */
  lemma {:induction false} AcyclicEnds(w: World, from: (Path, seq<string>) -> bool, rank: Path -> nat,
                                        depth: nat, path: Path)
    requires Covers(w, from) && Acyclic(w, from, rank) && (path in w.files ==> rank(path) < depth)
    ensures var o := Read(w, depth, path);
            !o.deep && (o.result.Ok? ==> path in w.files && from(path, o.dir))
    decreases depth, 0, 0
  {
    if path in w.files && Rendered(w, w.files[path]).Ok? {
      var pieces := Rendered(w, w.files[path]).value;
      assert pieces[0..] == pieces;
      RestEnds(w, from, rank, depth - 1, path, pieces, path.dir, 0);
    }
  }

  lemma {:induction false} RestEnds(w: World, from: (Path, seq<string>) -> bool, rank: Path -> nat, depth: nat,
                                    path: Path, pieces: seq<Piece>, dir: seq<string>, k: nat)
    requires Covers(w, from) && Acyclic(w, from, rank) && rank(path) <= depth
    requires path in w.files && Rendered(w, w.files[path]) == Ok(pieces)
    requires NoVars(pieces) && k <= |pieces| && from(path, dir)
    ensures var o := Expand(w, depth, dir, pieces[k..]);
            !o.deep && (o.result.Ok? ==> from(path, o.dir))
    decreases depth, 1, |pieces| - k
  {
    hide Rendered, Read;
    if k < |pieces| {
      var rest := pieces[k..];
      assert rest[0] == pieces[k] && rest[1..] == pieces[k + 1..];
      var first := ExpandOne(w, depth, dir, pieces[k]);
      if pieces[k].Include? {
        var t := Target(dir, pieces[k]);
        assert t in w.files ==> Includes(w, path, dir, t);
        AcyclicEnds(w, from, rank, depth, Target(dir, pieces[k]));
      }
      if first.result.Ok? {
        RestEnds(w, from, rank, depth, path, pieces, first.dir, k + 1);
      }
    }
  }

  /** The same for inlining as documented, where every include is looked up in `root`. */
  ghost predicate RootAcyclic(lib: Library, root: seq<string>, rank: Path -> nat) {
    forall p, t :: Includes(lib.Written(), p, root, t) ==> rank(t) < rank(p)
  }

  lemma {:induction false} MeaningEnds(lib: Library, root: seq<string>, rank: Path -> nat, depth: nat, path: Path)
    requires RootAcyclic(lib, root, rank) && (path in lib.docs ==> rank(path) < depth)
    ensures !Meaning(lib, depth, root, path).deep
    decreases depth, 0, 0
  {
    hide RootAcyclic, LinesMeaning, LineMeaning;
    if path in lib.docs && DocKnown(lib.docs[path], lib.data) && !Broken(lib.docs[path], lib.eval) {
      var doc := lib.docs[path];
      SelectKnown(doc, lib.eval, lib.data);
      SelectedEnds(lib, root, rank, depth - 1, path);
    }
  }

  lemma {:induction false} SelectedEnds(lib: Library, root: seq<string>, rank: Path -> nat, depth: nat, path: Path)
    requires RootAcyclic(lib, root, rank) && path in lib.docs && rank(path) <= depth
    requires DocKnown(lib.docs[path], lib.data) && !Broken(lib.docs[path], lib.eval)
    requires AllKnown(Select(lib.docs[path], lib.eval), lib.data)
    ensures !LinesMeaning(lib, depth, root, Select(lib.docs[path], lib.eval)).deep
    decreases depth, 2, 0
  {
    hide RootAcyclic, LinesMeaning, LineMeaning, Rendered, DocKnown, Broken, Select, Known;
    var doc, w := lib.docs[path], lib.Written();
    RenderedSelects(lib, doc);
    var lines := Select(doc, lib.eval);
    var pieces := Join(SubstituteLines(lines, lib.data), NEWLINE);
    assert path in w.files && w.files[path] == Lines(doc);
    LinesJoined(lib, depth, root, lines);
    assert pieces[0..] == pieces;
    LineEnds(lib, root, rank, depth, path, pieces, 0);
  }

  lemma {:induction false} LineEnds(lib: Library, root: seq<string>, rank: Path -> nat, depth: nat,
                                    path: Path, pieces: seq<Piece>, k: nat)
    requires RootAcyclic(lib, root, rank) && rank(path) <= depth
    requires path in lib.docs && Rendered(lib.Written(), lib.Written().files[path]) == Ok(pieces)
    requires NoVars(pieces) && k <= |pieces|
    ensures !LineMeaning(lib, depth, root, pieces[k..]).deep
    decreases depth, 1, |pieces| - k
  {
    hide Rendered, Meaning;
    if k < |pieces| {
      var rest := pieces[k..];
      assert rest[0] == pieces[k] && rest[1..] == pieces[k + 1..];
      if pieces[k].Include? {
        var t := Target(root, pieces[k]);
        assert t in lib.docs ==> Includes(lib.Written(), path, root, t);
        MeaningEnds(lib, root, rank, depth, Target(root, pieces[k]));
      }
      LineEnds(lib, root, rank, depth, path, pieces, k + 1);
    }
  }

  /** Once deep enough, any greater depth gives the same outcome. */
  lemma {:induction false} ReadDeeper(w: World, depth: nat, more: nat, path: Path)
    requires depth <= more && !Read(w, depth, path).deep
    ensures Read(w, more, path) == Read(w, depth, path)
    decreases depth, 0, 0
  {
    if path in w.files && Rendered(w, w.files[path]).Ok? {
      ExpandDeeper(w, depth - 1, more - 1, path.dir, Rendered(w, w.files[path]).value);
    }
  }

  lemma {:induction false} ExpandDeeper(w: World, depth: nat, more: nat, dir: seq<string>, pieces: seq<Piece>)
    requires depth <= more && NoVars(pieces) && !Expand(w, depth, dir, pieces).deep
    ensures Expand(w, more, dir, pieces) == Expand(w, depth, dir, pieces)
    decreases depth, 1, |pieces|
  {
    if pieces != [] {
      var first := ExpandOne(w, depth, dir, pieces[0]);
      if pieces[0].Include? {
        ReadDeeper(w, depth, more, Target(dir, pieces[0]));
      }
      if first.result.Ok? {
        ExpandDeeper(w, depth, more, first.dir, pieces[1..]);
      }
    }
  }

  lemma {:induction false} MeaningDeeper(lib: Library, depth: nat, more: nat, root: seq<string>, path: Path)
    requires depth <= more && !Meaning(lib, depth, root, path).deep
    ensures Meaning(lib, more, root, path) == Meaning(lib, depth, root, path)
    decreases depth, 0, 0
  {
    hide LinesMeaning;
    if path in lib.docs && DocKnown(lib.docs[path], lib.data) && !Broken(lib.docs[path], lib.eval) {
      SelectKnown(lib.docs[path], lib.eval, lib.data);
      LinesDeeper(lib, depth - 1, more - 1, root, Select(lib.docs[path], lib.eval));
    }
  }

  lemma {:induction false} LinesDeeper(lib: Library, depth: nat, more: nat, root: seq<string>, lines: seq<seq<Piece>>)
    requires depth <= more && AllKnown(lines, lib.data) && !LinesMeaning(lib, depth, root, lines).deep
    ensures LinesMeaning(lib, more, root, lines) == LinesMeaning(lib, depth, root, lines)
    decreases depth, 2, 0
  {
    hide LinesMeaning, LineMeaning;
    LinesJoined(lib, depth, root, lines);
    LinesJoined(lib, more, root, lines);
    LineDeeper(lib, depth, more, root, Join(SubstituteLines(lines, lib.data), NEWLINE));
  }

  lemma {:induction false} LineDeeper(lib: Library, depth: nat, more: nat, root: seq<string>, line: seq<Piece>)
    requires depth <= more && Known(line, lib.data) && !LineMeaning(lib, depth, root, line).deep
    ensures LineMeaning(lib, more, root, line) == LineMeaning(lib, depth, root, line)
    decreases depth, 1, |line|
  {
    if line != [] {
      if line[0].Include? {
        MeaningDeeper(lib, depth, more, root, Target(root, line[0]));
      }
      if PieceMeaning(lib, depth, root, line[0]).result.Ok? {
        LineDeeper(lib, depth, more, root, line[1..]);
      }
    }
  }
}
