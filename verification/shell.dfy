/** Splitting a shell command into its executable units, and what running the command can do. */
module Shell {
  import opened Text

  // Syntax

  datatype RedirOp =
    | RdrOut | AppOut | RdrIn | RdrInOut | DplIn | DplOut | RdrClob | AppClob
    | Hdoc | DashHdoc | WordHdoc | RdrAll | RdrAllClob | AppAll | AppAllClob
  {
    function Text(): string {
      match this
      case RdrOut => ">" case AppOut => ">>" case RdrIn => "<" case RdrInOut => "<>"
      case DplIn => "<&" case DplOut => ">&" case RdrClob => ">|" case AppClob => ">>|"
      case Hdoc => "<<" case DashHdoc => "<<-" case WordHdoc => "<<<"
      case RdrAll => "&>" case RdrAllClob => "&>|" case AppAll => "&>>" case AppAllClob => "&>>|"
    }
  }

  datatype BinaryOp = AndIf | OrIf | Pipe

  /** A node of the parsed command. Like the parser's own node interface it has one sort;
      a word carries the text the printer gives it. */
  datatype Node =
    // words
    | Word(parts: seq<Node>, text: string)
    | Lit
    | SglQuoted
    | DblQuoted(parts: seq<Node>)
    | CmdSubst(stmts: seq<Node>)
    | ProcSubst(stmts: seq<Node>)
    | ParamExp(words: seq<Node>)
    | ArithmExp(words: seq<Node>)
    // statements
    | Stmt(redirs: seq<Node>, cmd: Option<Node>, background: bool)
    | Redirect(op: RedirOp, target: Node)
    // commands
    | CallExpr(assigns: seq<Node>, args: seq<Node>)
    | Assign(name: string, value: Option<Node>)
    | BinaryCmd(bin: BinaryOp, x: Node, y: Node)
    | FuncDecl(name: string, body: Node)
    | Subshell(stmts: seq<Node>)
    | Block(stmts: seq<Node>)
    | IfClause(cond: seq<Node>, thn: seq<Node>, els: Option<Node>)
    | WhileClause(cond: seq<Node>, loop: seq<Node>)
    | ForClause(header: seq<Node>, loop: seq<Node>)
    | CaseClause(subject: Node, items: seq<Node>)
    | CaseItem(patterns: seq<Node>, stmts: seq<Node>)
    | EvalCmd(words: seq<Node>)  // [[ ]], (( )), let and declare
    | TimeClause(stmt: Node)
    | CoprocClause(stmt: Node)

  // Units

  const SAFE_REDIR_TARGETS: set<string> := {"/dev/null", "/dev/stderr", "/dev/stdout"}

  predicate IsOutputWriteRedir(op: RedirOp) {
    op in {RdrOut, AppOut, RdrInOut, RdrClob, AppClob, RdrAll, RdrAllClob, AppAll, AppAllClob}
  }

  function WordText(w: Node): string {
    if w.Word? then w.text else ""
  }

  function PrintWords(ws: seq<Node>): string {
    TrimSpace(Join(seq(|ws|, i requires 0 <= i < |ws| => WordText(ws[i])), " "))
  }

  function AssignText(a: Node): string {
    if !a.Assign? then "" else a.name + "=" + (if a.value.Some? then WordText(a.value.value) else "")
  }

  /** printCall: the assignments, then the words. */
  function CallText(assigns: seq<Node>, args: seq<Node>): string {
    var prefix := Join(seq(|assigns|, i requires 0 <= i < |assigns| => AssignText(assigns[i])), " ");
    var words := PrintWords(args);
    if words == "" then TrimSpace(prefix)
    else TrimSpace((if prefix == "" then "" else prefix + " ") + words)
  }

  function Singleton(text: string): seq<string> {
    if text == "" then [] else [text]
  }

  function RedirectUnit(op: RedirOp, target: Node): seq<string> {
    var t := TrimSpace(WordText(target));
    if !IsOutputWriteRedir(op) || t == "" || t in SAFE_REDIR_TARGETS then [] else [op.Text() + " " + t]
  }

  /** The parts of a node that are visited before its own unit is appended: all of them for most nodes,
      in the order of the parser's walk; nothing of a function declaration. */
  function Before(n: Node): (kids: seq<Node>)
    ensures forall k | k in kids :: k < n
  {
    match n
    case Word(parts, _) => parts
    case Lit => []
    case SglQuoted => []
    case DblQuoted(parts) => parts
    case CmdSubst(stmts) => stmts
    case ProcSubst(stmts) => stmts
    case ParamExp(words) => words
    case ArithmExp(words) => words
    case Stmt(redirs, cmd, _) => redirs + Maybe(cmd)
    case Redirect(_, target) => [target]
    case CallExpr(assigns, _) => assigns
    case Assign(_, value) => Maybe(value)
    case BinaryCmd(_, x, y) => [x, y]
    case FuncDecl(_, _) => []
    case Subshell(stmts) => stmts
    case Block(stmts) => stmts
    case IfClause(cond, thn, els) => cond + thn + Maybe(els)
    case WhileClause(cond, loop) => cond + loop
    case ForClause(header, loop) => header + loop
    case CaseClause(subject, items) => [subject] + items
    case CaseItem(patterns, stmts) => patterns + stmts
    case EvalCmd(words) => words
    case TimeClause(stmt) => [stmt]
    case CoprocClause(stmt) => [stmt]
  }

  /** The parts visited after it: the words of a call. */
  function After(n: Node): (kids: seq<Node>)
    ensures forall k | k in kids :: k < n
  {
    if n.CallExpr? then n.args else []
  }

  function Maybe(n: Option<Node>): seq<Node> {
    if n.Some? then [n.value] else []
  }

  function OwnUnit(n: Node): seq<string> {
    match n
    case Redirect(op, target) => RedirectUnit(op, target)
    case CallExpr(assigns, args) => if args == [] then [] else Singleton(CallText(assigns, args))
    case _ => []
  }

  function Flat(parts: seq<seq<string>>): seq<string> {
    if parts == [] then [] else parts[0] + Flat(parts[1..])
  }

  /** The units of a node in the order they are appended. */
  function Units(n: Node): seq<string>
    decreases n
  {
    var before, after := Before(n), After(n);
    Flat(seq(|before|, i requires 0 <= i < |before| => Units(before[i]))) + OwnUnit(n) +
    Flat(seq(|after|, i requires 0 <= i < |after| => Units(after[i])))
  }

  function UnitsOf(ns: seq<Node>): seq<string> {
    Flat(seq(|ns|, i requires 0 <= i < |ns| => Units(ns[i])))
  }

  lemma UnitsUnfold(n: Node)
    ensures Units(n) == UnitsOf(Before(n)) + OwnUnit(n) + UnitsOf(After(n))
  {
    var before, after := Before(n), After(n);
    assert seq(|before|, i requires 0 <= i < |before| => Units(before[i]))
        == seq(|before|, i requires 0 <= i < |before| => Units(before[i]));
  }

  lemma {:induction false} FlatSplit(a: seq<seq<string>>, b: seq<seq<string>>)
    ensures Flat(a + b) == Flat(a) + Flat(b)
  {
    if a == [] {
      assert a + b == b;
    } else {
      assert (a + b)[1..] == a[1..] + b;
      FlatSplit(a[1..], b);
    }
  }

  lemma UnitsOfSplit(a: seq<Node>, b: seq<Node>)
    ensures UnitsOf(a + b) == UnitsOf(a) + UnitsOf(b)
  {
    hide Units, Flat;
    var ab := a + b;
    assert seq(|ab|, i requires 0 <= i < |ab| => Units(ab[i]))
        == seq(|a|, i requires 0 <= i < |a| => Units(a[i])) + seq(|b|, i requires 0 <= i < |b| => Units(b[i]));
    FlatSplit(seq(|a|, i requires 0 <= i < |a| => Units(a[i])), seq(|b|, i requires 0 <= i < |b| => Units(b[i])));
  }

  lemma UnitsOfNone()
    ensures UnitsOf([]) == []
  {
  }

  lemma UnitsOfOne(n: Node)
    ensures UnitsOf([n]) == Units(n)
  {
    assert seq(|[n]|, i requires 0 <= i < |[n]| => Units([n][i])) == [Units(n)];
    assert Flat([Units(n)]) == Units(n) + Flat([Units(n)][1..]);
  }

  // What a unit says

  /** A word or an assignment as it is printed. */
  function Printed(n: Node): string {
    match n
    case Word(_, text) => text
    case Assign(name, None) => name + "="
    case Assign(name, Some(value)) => name + "=" + Printed(value)
    case _ => ""
  }

  /** The fields of the printed nodes, one node after the other. */
  function PrintedFields(ns: seq<Node>): seq<string> {
    if ns == [] then [] else Fields(Printed(ns[0])) + PrintedFields(ns[1..])
  }

  /** A call: its assignments are words and assignments, as the parser builds them. */
  predicate IsCall(n: Node) {
    && n.CallExpr? && (forall a | a in n.assigns :: a.Assign? && (a.value.Some? ==> a.value.value.Word?))
    && forall w | w in n.args :: w.Word?
  }

  /** The one unit of a call with words: its assignments and then its words, in order, without blanks around. */
  ghost predicate NamesCall(call: Node, own: seq<string>)
    requires call.CallExpr?
  {
    var words := PrintedFields(call.assigns) + PrintedFields(call.args);
    if call.args == [] || words == [] then own == []
    else |own| == 1 && Fields(own[0]) == words && TrimSpace(own[0]) == own[0]
  }

  function AllFields(parts: seq<string>): seq<string> {
    if parts == [] then [] else Fields(parts[0]) + AllFields(parts[1..])
  }

  lemma {:induction false} FieldsOfJoin(parts: seq<string>)
    ensures Fields(Join(parts, " ")) == AllFields(parts)
  {
    if |parts| == 1 {
      assert parts[1..] == [];
    } else if |parts| > 1 {
      FieldsOfJoin(parts[1..]);
      FieldsSplit(parts[0], ' ', Join(parts[1..], " "));
    }
  }

  lemma {:induction false} AllPrinted(ns: seq<Node>, parts: seq<string>)
    requires |parts| == |ns| && forall i | 0 <= i < |ns| :: parts[i] == Printed(ns[i])
    ensures AllFields(parts) == PrintedFields(ns)
  {
    if ns != [] {
      AllPrinted(ns[1..], parts[1..]);
    }
  }

  lemma WordFields(args: seq<Node>)
    requires forall w | w in args :: w.Word?
    ensures Fields(PrintWords(args)) == PrintedFields(args)
  {
    var parts := seq(|args|, i requires 0 <= i < |args| => WordText(args[i]));
    FieldsTrim(Join(parts, " "));
    FieldsOfJoin(parts);
    AllPrinted(args, parts);
  }

  lemma CallFields(call: Node)
    requires IsCall(call)
    ensures var text := CallText(call.assigns, call.args);
            Fields(text) == PrintedFields(call.assigns) + PrintedFields(call.args) && TrimSpace(text) == text
  {
    var parts := seq(|call.assigns|, i requires 0 <= i < |call.assigns| => AssignText(call.assigns[i]));
    var prefix, words := Join(parts, " "), PrintWords(call.args);
    FieldsOfJoin(parts);
    AllPrinted(call.assigns, parts);
    WordFields(call.args);
    var whole := (if prefix == "" then "" else prefix + " ") + words;
    assert Fields(whole) == Fields(prefix) + Fields(words) by {
      if prefix == "" { assert whole == words; } else { FieldsSplit(prefix, ' ', words); assert whole == prefix + " " + words; }
    }
    FieldsTrim(prefix);
    TrimIdempotent(prefix);
    FieldsTrim(whole);
    TrimIdempotent(whole);
  }

  /** What visiting a call appends: the units inside its assignments, its own, and those inside its words. */
  lemma CallUnits(call: Node) returns (own: seq<string>)
    requires IsCall(call)
    ensures Units(call) == UnitsOf(call.assigns) + own + UnitsOf(call.args) && NamesCall(call, own)
  {
    hide CallText;
    own := OwnUnit(call);
    UnitsUnfold(call);
    CallFields(call);
    BlankHasNoFields(CallText(call.assigns, call.args));
  }

  /** The operator shows what is opened for writing: `>` is part of it, and it does not duplicate a descriptor. */
  lemma WritesExactly(op: RedirOp)
    ensures IsOutputWriteRedir(op) <==> '>' in op.Text() && op != DplOut
    ensures forall other: RedirOp :: other.Text() == op.Text() ==> other == op
  {
  }

  ghost predicate NamesWrite(r: Node, own: seq<string>)
    requires r.Redirect? && r.target.Word?
  {
    if '>' !in r.op.Text() || r.op == DplOut || Fields(r.target.text) == []
       || TrimSpace(r.target.text) in {"/dev/null", "/dev/stderr", "/dev/stdout"} then own == []
    else own == [r.op.Text() + " " + TrimSpace(r.target.text)]
  }

  lemma RedirectUnits(r: Node) returns (own: seq<string>)
    requires r.Redirect? && r.target.Word?
    ensures Units(r) == Units(r.target) + own && NamesWrite(r, own)
  {
    own := OwnUnit(r);
    UnitsUnfold(r);
    UnitsOfOne(r.target);
    UnitsOfNone();
    WritesExactly(r.op);
    BlankHasNoFields(r.target.text);
  }

  /** The node, or one that the walk visits below it. */
  predicate Visits(n: Node, k: Node)
    decreases n
  {
    k == n || exists kid | kid in Before(n) + After(n) :: Visits(kid, k)
  }

  /** Every call that is visited has its unit among those of the whole. */
  lemma {:induction false} VisitedIsNamed(n: Node, call: Node) returns (own: seq<string>)
    requires Visits(n, call) && IsCall(call)
    ensures NamesCall(call, own) && forall u | u in own :: u in Units(n)
    decreases n
  {
    hide Units, NamesCall;
    if call == n {
      own := CallUnits(call);
    } else {
      var kid :| kid in Before(n) + After(n) && Visits(kid, call);
      own := VisitedIsNamed(kid, call);
      UnitsUnfold(n);
      forall u | u in own ensures u in Units(n) {
        UnitsOfMember(Before(n), u);
        UnitsOfMember(After(n), u);
      }
    }
  }

  predicate IsWrite(n: Node) {
    n.Redirect? && n.target.Word?
  }

  /** And every unit is that of a call or of a write that is visited. */
  lemma {:induction false} UnitIsOfVisited(n: Node, u: string) returns (k: Node)
    requires u in Units(n)
    ensures Visits(n, k) && (k.CallExpr? || k.Redirect?)
    ensures (IsCall(k) ==> NamesCall(k, [u])) && (IsWrite(k) ==> NamesWrite(k, [u]))
    decreases n
  {
    hide Units, NamesCall, NamesWrite;
    UnitsUnfold(n);
    if u in OwnUnit(n) {
      k := n;
      OwnUnitIsNamed(n, u);
    } else {
      UnitsOfMember(Before(n), u);
      UnitsOfMember(After(n), u);
      var kid :| kid in Before(n) + After(n) && u in Units(kid);
      k := UnitIsOfVisited(kid, u);
    }
  }

  lemma OwnUnitIsNamed(n: Node, u: string)
    requires u in OwnUnit(n)
    ensures n.CallExpr? || n.Redirect?
    ensures (IsCall(n) ==> NamesCall(n, [u])) && (IsWrite(n) ==> NamesWrite(n, [u]))
  {
    hide TrimSpace, CallText;
    if IsCall(n) {
      CallFields(n);
      BlankHasNoFields(CallText(n.assigns, n.args));
    }
    if IsWrite(n) {
      WritesExactly(n.op);
      BlankHasNoFields(n.target.text);
    }
  }

  // Extraction

  /** The walk of ExtractSubCommands, appending to the shared list. */
  class Extractor {
    var cmds: seq<string>

    constructor ()
      ensures cmds == []
    {
      cmds := [];
    }

    method ExtractAll(ns: seq<Node>)
      modifies this
      ensures cmds == old(cmds) + UnitsOf(ns)
      decreases ns, 1
    {
      hide Units, UnitsOf;
      UnitsOfNone();
      for i := 0 to |ns|
        invariant cmds == old(cmds) + UnitsOf(ns[..i])
      {
        Visit(ns[i]);
        UnitsOfSplit(ns[..i], [ns[i]]);
        UnitsOfOne(ns[i]);
        assert ns[..i + 1] == ns[..i] + [ns[i]];
      }
      assert ns[..|ns|] == ns;
    }

    method ExtractFromStmt(stmt: Node)
      requires stmt.Stmt?
      modifies this
      ensures cmds == old(cmds) + Units(stmt)
      decreases stmt, 0
    {
      hide Units, UnitsOf;
      UnitsOfNone();
      ExtractAll(stmt.redirs);
      if stmt.cmd.Some? {
        Visit(stmt.cmd.value);
        UnitsOfOne(stmt.cmd.value);
      }
      UnitsUnfold(stmt);
      UnitsOfSplit(stmt.redirs, Maybe(stmt.cmd));
    }

    method ExtractFromRedirect(r: Node)
      requires r.Redirect?
      modifies this
      ensures cmds == old(cmds) + Units(r)
      decreases r, 0
    {
      hide Units, UnitsOf;
      UnitsOfNone();
      Visit(r.target);
      if IsOutputWriteRedir(r.op) {
        var target := TrimSpace(WordText(r.target));
        if target != "" && target !in SAFE_REDIR_TARGETS {
          cmds := cmds + [r.op.Text() + " " + target];
        }
      }
      UnitsUnfold(r);
      UnitsOfOne(r.target);
    }

    method ExtractFromCall(call: Node)
      requires call.CallExpr?
      modifies this
      ensures cmds == old(cmds) + Units(call)
      ensures IsCall(call)
          ==> exists own :: NamesCall(call, own) && cmds == old(cmds) + UnitsOf(call.assigns) + own + UnitsOf(call.args)
      decreases call, 0
    {
      hide Units, UnitsOf, NamesCall;
      UnitsOfNone();
      ExtractAll(call.assigns);
      if |call.args| > 0 {
        var s := CallText(call.assigns, call.args);
        if s != "" {
          cmds := cmds + [s];
        }
        ExtractAll(call.args);
      }
      UnitsUnfold(call);
      if IsCall(call) {
        ghost var own := CallUnits(call);
        ghost var a, b := UnitsOf(call.assigns), UnitsOf(call.args);
        assert old(cmds) + (a + own + b) == old(cmds) + a + own + b;
      }
    }

    /** The switch over nodes; words and compound commands are walked down to the statements inside. */
    method Visit(n: Node)
      modifies this
      ensures cmds == old(cmds) + Units(n)
      decreases n, 2
    {
      hide Units, UnitsOf;
      UnitsOfNone();
      match n
      case Stmt(_, _, _) => ExtractFromStmt(n);
      case Redirect(_, _) => ExtractFromRedirect(n);
      case CallExpr(_, _) => ExtractFromCall(n);
      case FuncDecl(_, _) => UnitsUnfold(n);  // a declaration runs nothing
      case _ =>
        UnitsUnfold(n);
        Walk(Before(n), n);
    }

    method Walk(kids: seq<Node>, ghost parent: Node)
      requires forall k | k in kids :: k < parent
      modifies this
      ensures cmds == old(cmds) + UnitsOf(kids)
      decreases parent, 0
    {
      hide Units, UnitsOf;
      UnitsOfNone();
      for i := 0 to |kids|
        invariant cmds == old(cmds) + UnitsOf(kids[..i])
      {
        assert kids[i] in kids;
        Visit(kids[i]);
        UnitsOfSplit(kids[..i], [kids[i]]);
        UnitsOfOne(kids[i]);
        assert kids[..i + 1] == kids[..i] + [kids[i]];
      }
      assert kids[..|kids|] == kids;
    }
  }

  /** ExtractSubCommands on the statements of a parsed command. */
  method ExtractSubCommands(stmts: seq<Node>) returns (cmds: seq<string>)
    ensures cmds == UnitsOf(stmts)
  {
    var e := new Extractor();
    e.ExtractAll(stmts);
    cmds := e.cmds;
  }

  // Running a command

  /** What happens when a command runs: a simple command is executed, or a redirection opens its target for writing.
      Calling a function is the execution of a simple command. */
  datatype Event = Ran(assigns: seq<Node>, args: seq<Node>) | Wrote(op: RedirOp, target: Node)

  function EventText(e: Event): string {
    match e
    case Ran(assigns, args) => CallText(assigns, args)
    case Wrote(op, target) => op.Text() + " " + TrimSpace(WordText(target))
  }

  /** Everything but a write to a safe target has to be reported (a blank text names nothing). */
  predicate MustReport(e: Event) {
    match e
    case Ran(assigns, args) => CallText(assigns, args) != ""
    case Wrote(op, target) => TrimSpace(WordText(target)) != "" && TrimSpace(WordText(target)) !in SAFE_REDIR_TARGETS
  }

  /** How one run resolves everything the text leaves open: `pick` is a number (statements reached before
      an exit, a branch, a number of rounds), `flags` are yes-or-no choices, and `kids` belong to the parts. */
  datatype Fate = Fate(pick: nat, flags: seq<bool>, kids: seq<Fate>) {
    function Kid(i: nat): Fate { if i < |kids| then kids[i] else Fate(0, [], []) }
    predicate Flag(i: nat) { i < |flags| && flags[i] }
  }

  /** Two concurrent runs, interleaved as the choices say. */
  function Merge(a: seq<Event>, b: seq<Event>, choices: seq<bool>): seq<Event>
    decreases |a| + |b|
  {
    if a == [] then b else if b == [] then a
    else if choices != [] && choices[0] then [b[0]] + Merge(a, b[1..], choices[1..])
    else [a[0]] + Merge(a[1..], b, if choices == [] then [] else choices[1..])
  }

  /** The events of one run of a node. */
  function Exec(n: Node, f: Fate): seq<Event>
    decreases n, 1, 0
  {
    match n
    case Word(parts, _) => ExecEach(parts, f, 0)
    case Lit => []
    case SglQuoted => []
    case DblQuoted(parts) => ExecEach(parts, f, 0)
    case CmdSubst(stmts) => ExecList(stmts, f, 0)
    case ProcSubst(stmts) => ExecList(stmts, f, 0)
    case ParamExp(words) => ExecSome(words, f, 0)
    case ArithmExp(words) => ExecSome(words, f, 0)
    case Stmt(redirs, cmd, _) =>
      // a failing redirection leaves the command unexecuted
      ExecEach(redirs, f.Kid(0), 0) + (if cmd.Some? && f.Flag(0) then Exec(cmd.value, f.Kid(1)) else [])
    case Redirect(op, target) =>
      Exec(target, f.Kid(0)) + (if IsOutputWriteRedir(op) then [Wrote(op, target)] else [])
    case CallExpr(assigns, args) =>
      ExecEach(args, f.Kid(0), 0) + ExecEach(assigns, f.Kid(1), 0) + (if args == [] then [] else [Ran(assigns, args)])
    case Assign(_, value) => if value.Some? then Exec(value.value, f.Kid(0)) else []
    case BinaryCmd(op, x, y) =>
      if op == Pipe then Merge(Exec(x, f.Kid(0)), Exec(y, f.Kid(1)), f.flags)
      else Exec(x, f.Kid(0)) + (if f.Flag(0) then Exec(y, f.Kid(1)) else [])
    case FuncDecl(_, _) => []
    case Subshell(stmts) => ExecList(stmts, f, 0)
    case Block(stmts) => ExecList(stmts, f, 0)
    case IfClause(cond, thn, els) =>
      ExecList(cond, f.Kid(0), 0) +
      (if f.Flag(0) then ExecList(thn, f.Kid(1), 0)
       else if els.Some? then Exec(els.value, f.Kid(2)) else [])
    case WhileClause(_, _) => ExecRounds(n, f, f.pick)
    case ForClause(_, _) => ExecRounds(n, f, f.pick)
    case CaseClause(subject, items) => Exec(subject, f.Kid(0)) + ExecEach(items, f.Kid(1), 0)
    case CaseItem(patterns, stmts) =>
      ExecSome(patterns, f.Kid(0), 0) + (if f.Flag(0) then ExecList(stmts, f.Kid(1), 0) else [])
    case EvalCmd(words) => ExecSome(words, f, 0)
    case TimeClause(stmt) => Exec(stmt, f.Kid(0))
    case CoprocClause(stmt) => Exec(stmt, f.Kid(0))
  }

  /** All of them, one after the other. */
  function ExecEach(ns: seq<Node>, f: Fate, i: nat): seq<Event>
    decreases ns, 0, 0
  {
    if ns == [] then [] else Exec(ns[0], f.Kid(i)) + ExecEach(ns[1..], f, i + 1)
  }

  /** Those the run needs the value of. */
  function ExecSome(ns: seq<Node>, f: Fate, i: nat): seq<Event>
    decreases ns, 0, 0
  {
    if ns == [] then [] else (if f.Flag(i) then Exec(ns[0], f.Kid(i)) else []) + ExecSome(ns[1..], f, i + 1)
  }

  /** A statement list, left after `pick` statements; a background statement runs beside the rest. */
  function ExecList(ns: seq<Node>, f: Fate, i: nat): seq<Event>
    decreases ns, 0, 0
  {
    if ns == [] || i >= f.pick then []
    else
      var first, rest := Exec(ns[0], f.Kid(i)), ExecList(ns[1..], f, i + 1);
      if ns[0].Stmt? && ns[0].background then Merge(first, rest, f.flags) else first + rest
  }

  /** A loop that still has `rounds` to go: its condition or header, the body, and the remaining rounds.
      The header words of a for loop are needed in some rounds only. */
  function ExecRounds(n: Node, f: Fate, rounds: nat): seq<Event>
    requires n.WhileClause? || n.ForClause?
    decreases n, 0, rounds
  {
    var g := f.Kid(rounds);
    var head := if n.WhileClause? then ExecList(n.cond, g.Kid(0), 0) else ExecSome(n.header, g.Kid(0), 0);
    if rounds == 0 then head else head + ExecList(n.loop, g.Kid(1), 0) + ExecRounds(n, f, rounds - 1)
  }

  // Where events and units come from

  /** The event a node adds to those of its parts. */
  function Own(n: Node): set<Event> {
    match n
    case Redirect(op, target) => if IsOutputWriteRedir(op) then {Wrote(op, target)} else {}
    case CallExpr(assigns, args) => if args == [] then {} else {Ran(assigns, args)}
    case _ => {}
  }

  function Kids(n: Node): seq<Node> {
    Before(n) + After(n)
  }

  lemma {:induction false} FlatMember(parts: seq<seq<string>>, u: string)
    ensures u in Flat(parts) <==> exists p | p in parts :: u in p
  {
    if parts != [] {
      FlatMember(parts[1..], u);
      assert parts == [parts[0]] + parts[1..];
    }
  }

  lemma UnitsOfMember(ns: seq<Node>, u: string)
    ensures u in UnitsOf(ns) <==> exists k | k in ns :: u in Units(k)
  {
    var parts := seq(|ns|, i requires 0 <= i < |ns| => Units(ns[i]));
    FlatMember(parts, u);
    assert forall i | 0 <= i < |ns| :: parts[i] == Units(ns[i]);
    if k :| k in ns && u in Units(k) {
      var i :| 0 <= i < |ns| && ns[i] == k;
      assert parts[i] in parts;
    }
  }

  /** The units of a node are those of its parts and that of its own reportable event. */
  lemma UnitOrigin(n: Node, u: string)
    ensures u in Units(n)
       <==> (exists k | k in Kids(n) :: u in Units(k)) || (exists e | e in Own(n) && MustReport(e) :: EventText(e) == u)
  {
    UnitsUnfold(n);
    UnitsOfMember(Before(n), u);
    UnitsOfMember(After(n), u);
    OwnUnitIsOwnEvent(n, u);
  }

  lemma OwnUnitIsOwnEvent(n: Node, u: string)
    ensures u in OwnUnit(n) <==> exists e | e in Own(n) && MustReport(e) :: EventText(e) == u
  {
    if n.Redirect? && IsOutputWriteRedir(n.op) {
      assert Wrote(n.op, n.target) in Own(n);
    } else if n.CallExpr? && n.args != [] {
      assert Ran(n.assigns, n.args) in Own(n);
    }
  }

  lemma {:induction false} MergeKeeps(a: seq<Event>, b: seq<Event>, choices: seq<bool>, e: Event)
    ensures e in Merge(a, b, choices) <==> e in a || e in b
    decreases |a| + |b|
  {
    if a != [] && b != [] {
      if choices != [] && choices[0] {
        MergeKeeps(a, b[1..], choices[1..], e);
        assert b == [b[0]] + b[1..];
      } else {
        MergeKeeps(a[1..], b, if choices == [] then [] else choices[1..], e);
        assert a == [a[0]] + a[1..];
      }
    }
  }

  lemma {:induction false} EachOrigin(ns: seq<Node>, f: Fate, i: nat, e: Event) returns (k: Node, g: Fate)
    requires e in ExecEach(ns, f, i)
    ensures k in ns && e in Exec(k, g)
  {
    hide Exec;
    k, g := ns[0], f.Kid(i);
    if e !in Exec(k, g) {
      k, g := EachOrigin(ns[1..], f, i + 1, e);
    }
  }

  lemma {:induction false} SomeOrigin(ns: seq<Node>, f: Fate, i: nat, e: Event) returns (k: Node, g: Fate)
    requires e in ExecSome(ns, f, i)
    ensures k in ns && e in Exec(k, g)
  {
    hide Exec;
    k, g := ns[0], f.Kid(i);
    if e !in Exec(k, g) {
      k, g := SomeOrigin(ns[1..], f, i + 1, e);
    }
  }

  lemma {:induction false} ListOrigin(ns: seq<Node>, f: Fate, i: nat, e: Event) returns (k: Node, g: Fate)
    requires e in ExecList(ns, f, i)
    ensures k in ns && e in Exec(k, g)
  {
    hide Exec;
    k, g := ns[0], f.Kid(i);
    MergeKeeps(Exec(k, g), ExecList(ns[1..], f, i + 1), f.flags, e);
    if e !in Exec(k, g) {
      k, g := ListOrigin(ns[1..], f, i + 1, e);
    }
  }

  lemma {:induction false} RoundsOrigin(n: Node, f: Fate, rounds: nat, e: Event) returns (k: Node, g: Fate)
    requires n.WhileClause? || n.ForClause?
    requires e in ExecRounds(n, f, rounds)
    ensures k in Kids(n) && e in Exec(k, g)
    decreases rounds
  {
    hide Exec, ExecList, ExecSome;
    var h := f.Kid(rounds);
    if n.WhileClause? && e in ExecList(n.cond, h.Kid(0), 0) {
      k, g := ListOrigin(n.cond, h.Kid(0), 0, e);
    } else if n.ForClause? && e in ExecSome(n.header, h.Kid(0), 0) {
      k, g := SomeOrigin(n.header, h.Kid(0), 0, e);
    } else if e in ExecList(n.loop, h.Kid(1), 0) {
      k, g := ListOrigin(n.loop, h.Kid(1), 0, e);
    } else {
      k, g := RoundsOrigin(n, f, rounds - 1, e);
    }
  }

  /** Nodes that do one of a few things depending on a choice. */
  predicate IsControl(n: Node) {
    n.IfClause? || n.WhileClause? || n.ForClause? || n.CaseClause? || n.CaseItem?
  }

  /** Every event of a run is the node's own or comes from a run of one of its parts. */
  lemma EventOrigin(n: Node, f: Fate, e: Event) returns (k: Node, g: Fate)
    requires e in Exec(n, f)
    ensures e in Own(n) || (k in Kids(n) && e in Exec(k, g))
  {
    hide Exec;
    if IsControl(n) {
      k, g := ControlOrigin(n, f, e);
    } else if n.Stmt? || n.CallExpr? || n.BinaryCmd? {
      k, g := CommandOrigin(n, f, e);
    } else {
      k, g := ListNodeOrigin(n, f, e);
    }
  }

  lemma ListNodeOrigin(n: Node, f: Fate, e: Event) returns (k: Node, g: Fate)
    requires e in Exec(n, f) && !IsControl(n) && !n.Stmt? && !n.CallExpr? && !n.BinaryCmd?
    ensures e in Own(n) || (k in Kids(n) && e in Exec(k, g))
  {
    hide ExecList, ExecSome, ExecEach, ExecRounds, Merge;
    k, g := n, f.Kid(0);
    match n
    case Word(parts, _) => k, g := EachOrigin(parts, f, 0, e);
    case DblQuoted(parts) => k, g := EachOrigin(parts, f, 0, e);
    case CmdSubst(stmts) => k, g := ListOrigin(stmts, f, 0, e);
    case ProcSubst(stmts) => k, g := ListOrigin(stmts, f, 0, e);
    case ParamExp(words) => k, g := SomeOrigin(words, f, 0, e);
    case ArithmExp(words) => k, g := SomeOrigin(words, f, 0, e);
    case Redirect(_, target) => k := target;
    case Assign(_, value) => k := value.value;
    case Subshell(stmts) => k, g := ListOrigin(stmts, f, 0, e);
    case Block(stmts) => k, g := ListOrigin(stmts, f, 0, e);
    case EvalCmd(words) => k, g := SomeOrigin(words, f, 0, e);
    case TimeClause(stmt) => k := stmt;
    case CoprocClause(stmt) => k := stmt;
  }

  lemma CommandOrigin(n: Node, f: Fate, e: Event) returns (k: Node, g: Fate)
    requires e in Exec(n, f) && (n.Stmt? || n.CallExpr? || n.BinaryCmd?)
    ensures e in Own(n) || (k in Kids(n) && e in Exec(k, g))
  {
    hide ExecList, ExecSome, ExecEach, ExecRounds, Merge;
    k, g := n, f;
    match n
    case Stmt(redirs, cmd, _) =>
      if e in ExecEach(redirs, f.Kid(0), 0) {
        k, g := EachOrigin(redirs, f.Kid(0), 0, e);
      } else {
        k, g := cmd.value, f.Kid(1);
      }
    case CallExpr(assigns, args) =>
      if e in ExecEach(args, f.Kid(0), 0) {
        k, g := EachOrigin(args, f.Kid(0), 0, e);
      } else if e in ExecEach(assigns, f.Kid(1), 0) {
        k, g := EachOrigin(assigns, f.Kid(1), 0, e);
      }
    case BinaryCmd(_, x, y) =>
      MergeKeeps(Exec(x, f.Kid(0)), Exec(y, f.Kid(1)), f.flags, e);
      if e in Exec(x, f.Kid(0)) { k, g := x, f.Kid(0); } else { k, g := y, f.Kid(1); }
  }

  lemma ControlOrigin(n: Node, f: Fate, e: Event) returns (k: Node, g: Fate)
    requires e in Exec(n, f) && IsControl(n)
    ensures k in Kids(n) && e in Exec(k, g)
  {
    hide ExecList, ExecSome, ExecEach, ExecRounds, Merge;
    match n
    case IfClause(cond, thn, els) =>
      if e in ExecList(cond, f.Kid(0), 0) {
        k, g := ListOrigin(cond, f.Kid(0), 0, e);
      } else if f.Flag(0) {
        k, g := ListOrigin(thn, f.Kid(1), 0, e);
      } else {
        k, g := els.value, f.Kid(2);
      }
    case WhileClause(_, _) => k, g := RoundsOrigin(n, f, f.pick, e);
    case ForClause(_, _) => k, g := RoundsOrigin(n, f, f.pick, e);
    case CaseClause(subject, items) =>
      if e in Exec(subject, f.Kid(0)) {
        k, g := subject, f.Kid(0);
      } else {
        k, g := EachOrigin(items, f.Kid(1), 0, e);
      }
    case CaseItem(patterns, stmts) =>
      if e in ExecSome(patterns, f.Kid(0), 0) {
        k, g := SomeOrigin(patterns, f.Kid(0), 0, e);
      } else {
        k, g := ListOrigin(stmts, f.Kid(1), 0, e);
      }
  }

  /** Whatever happens when a node runs is named by one of its units. */
  lemma {:induction false} RunsAreReported(n: Node, f: Fate, e: Event)
    requires e in Exec(n, f) && MustReport(e)
    ensures EventText(e) in Units(n)
    decreases n
  {
    hide Exec, Units;
    var k, g := EventOrigin(n, f, e);
    UnitOrigin(n, EventText(e));
    if e !in Own(n) {
      RunsAreReported(k, g, e);
    }
  }

  // Every unit can happen

  const NO_FATE := Fate(0, [], [])

  /** A fate that reaches part `i` and gives it `g`. */
  function Reach(i: nat, g: Fate): (f: Fate)
    ensures f.Kid(i) == g && f.Flag(i) && f.pick == i + 1
  {
    Fate(i + 1, seq(i + 1, _ => true), seq(i, _ => NO_FATE) + [g])
  }

  lemma {:induction false} InEach(ns: seq<Node>, j: nat, f: Fate, i: nat, e: Event)
    requires j < |ns| && e in Exec(ns[j], f.Kid(i + j))
    ensures e in ExecEach(ns, f, i)
    decreases j
  {
    hide Exec;
    if j > 0 {
      InEach(ns[1..], j - 1, f, i + 1, e);
    }
  }

  lemma {:induction false} InSome(ns: seq<Node>, j: nat, f: Fate, i: nat, e: Event)
    requires j < |ns| && f.Flag(i + j) && e in Exec(ns[j], f.Kid(i + j))
    ensures e in ExecSome(ns, f, i)
    decreases j
  {
    hide Exec;
    if j > 0 {
      InSome(ns[1..], j - 1, f, i + 1, e);
    }
  }

  lemma {:induction false} InList(ns: seq<Node>, j: nat, f: Fate, i: nat, e: Event)
    requires j < |ns| && i + j < f.pick && e in Exec(ns[j], f.Kid(i + j))
    ensures e in ExecList(ns, f, i)
    decreases j
  {
    hide Exec;
    MergeKeeps(Exec(ns[0], f.Kid(i)), ExecList(ns[1..], f, i + 1), f.flags, e);
    if j > 0 {
      InList(ns[1..], j - 1, f, i + 1, e);
    }
  }

  /** Some fate of a list reaches what one of its members can do, in each of the three ways to run a list. */
  lemma ListCanReach(ns: seq<Node>, k: Node, g: Fate, e: Event) returns (f: Fate)
    requires k in ns && e in Exec(k, g)
    ensures e in ExecEach(ns, f, 0) && e in ExecSome(ns, f, 0) && e in ExecList(ns, f, 0)
  {
    hide Exec;
    var j :| 0 <= j < |ns| && ns[j] == k;
    f := Reach(j, g);
    InEach(ns, j, f, 0, e);
    InSome(ns, j, f, 0, e);
    InList(ns, j, f, 0, e);
  }

  lemma LoopCanReach(n: Node, k: Node, g: Fate, e: Event) returns (f: Fate)
    requires n.WhileClause? || n.ForClause?
    requires k in Kids(n) && e in Exec(k, g)
    ensures e in ExecRounds(n, f, f.pick)
  {
    hide Exec, ExecList, ExecSome;
    var head := if n.WhileClause? then n.cond else n.header;
    if k in head {
      var h := ListCanReach(head, k, g, e);
      f := Fate(0, [], [Fate(0, [], [h])]);
      assert f.Kid(0).Kid(0) == h;
    } else {
      var h := ListCanReach(n.loop, k, g, e);
      f := Fate(1, [], [NO_FATE, Fate(0, [], [NO_FATE, h])]);
      assert f.Kid(1).Kid(1) == h;
    }
  }

  /** What a part can do, the node can do. */
  lemma NodeCanReach(n: Node, k: Node, g: Fate, e: Event) returns (f: Fate)
    requires k in Kids(n) && e in Exec(k, g)
    ensures e in Exec(n, f)
  {
    hide Exec;
    if IsControl(n) {
      f := ControlCanReach(n, k, g, e);
    } else if n.Stmt? || n.CallExpr? || n.BinaryCmd? {
      f := CommandCanReach(n, k, g, e);
    } else {
      f := ListNodeCanReach(n, k, g, e);
    }
  }

  lemma ListNodeCanReach(n: Node, k: Node, g: Fate, e: Event) returns (f: Fate)
    requires k in Kids(n) && e in Exec(k, g) && !IsControl(n) && !n.Stmt? && !n.CallExpr? && !n.BinaryCmd?
    ensures e in Exec(n, f)
  {
    hide ExecList, ExecSome, ExecEach, ExecRounds, Merge;
    f := Fate(0, [], [g]);
    match n
    case Word(parts, _) => f := ListCanReach(parts, k, g, e);
    case DblQuoted(parts) => f := ListCanReach(parts, k, g, e);
    case CmdSubst(stmts) => f := ListCanReach(stmts, k, g, e);
    case ProcSubst(stmts) => f := ListCanReach(stmts, k, g, e);
    case ParamExp(words) => f := ListCanReach(words, k, g, e);
    case ArithmExp(words) => f := ListCanReach(words, k, g, e);
    case Subshell(stmts) => f := ListCanReach(stmts, k, g, e);
    case Block(stmts) => f := ListCanReach(stmts, k, g, e);
    case EvalCmd(words) => f := ListCanReach(words, k, g, e);
    case _ =>
  }

  lemma CommandCanReach(n: Node, k: Node, g: Fate, e: Event) returns (f: Fate)
    requires k in Kids(n) && e in Exec(k, g) && (n.Stmt? || n.CallExpr? || n.BinaryCmd?)
    ensures e in Exec(n, f)
  {
    hide ExecList, ExecSome, ExecEach, ExecRounds, Merge;
    match n
    case Stmt(redirs, cmd, _) =>
      if k in redirs {
        var h := ListCanReach(redirs, k, g, e);
        f := Fate(0, [], [h]);
      } else {
        f := Fate(0, [true], [NO_FATE, g]);
      }
    case CallExpr(assigns, args) =>
      if k in args {
        var h := ListCanReach(args, k, g, e);
        f := Fate(0, [], [h]);
      } else {
        var h := ListCanReach(assigns, k, g, e);
        f := Fate(0, [], [NO_FATE, h]);
      }
    case BinaryCmd(_, x, y) =>
      f := if k == x then Fate(0, [], [g]) else Fate(0, [true], [NO_FATE, g]);
      MergeKeeps(Exec(x, f.Kid(0)), Exec(y, f.Kid(1)), f.flags, e);
  }

  lemma ControlCanReach(n: Node, k: Node, g: Fate, e: Event) returns (f: Fate)
    requires k in Kids(n) && e in Exec(k, g) && IsControl(n)
    ensures e in Exec(n, f)
  {
    hide ExecList, ExecSome, ExecEach, ExecRounds, Merge;
    match n
    case WhileClause(_, _) => f := LoopCanReach(n, k, g, e);
    case ForClause(_, _) => f := LoopCanReach(n, k, g, e);
    case IfClause(_, _, _) => f := IfCanReach(n, k, g, e);
    case CaseClause(_, _) => f := CaseCanReach(n, k, g, e);
    case CaseItem(_, _) => f := CaseCanReach(n, k, g, e);
  }

  lemma IfCanReach(n: Node, k: Node, g: Fate, e: Event) returns (f: Fate)
    requires k in Kids(n) && e in Exec(k, g) && n.IfClause?
    ensures e in Exec(n, f)
  {
    hide ExecList, ExecSome, ExecEach, ExecRounds, Merge;
    if k in n.cond {
      var h := ListCanReach(n.cond, k, g, e);
      f := Fate(0, [], [h]);
    } else if k in n.thn {
      var h := ListCanReach(n.thn, k, g, e);
      f := Fate(0, [true], [NO_FATE, h]);
    } else {
      f := Fate(0, [], [NO_FATE, NO_FATE, g]);
    }
  }

  lemma CaseCanReach(n: Node, k: Node, g: Fate, e: Event) returns (f: Fate)
    requires k in Kids(n) && e in Exec(k, g) && (n.CaseClause? || n.CaseItem?)
    ensures e in Exec(n, f)
  {
    hide ExecList, ExecSome, ExecEach, ExecRounds, Merge;
    match n
    case CaseClause(subject, items) =>
      if k == subject {
        f := Fate(0, [], [g]);
      } else {
        var h := ListCanReach(items, k, g, e);
        f := Fate(0, [], [NO_FATE, h]);
      }
    case CaseItem(patterns, stmts) =>
      if k in patterns {
        var h := ListCanReach(patterns, k, g, e);
        f := Fate(0, [], [h]);
      } else {
        var h := ListCanReach(stmts, k, g, e);
        f := Fate(0, [true], [NO_FATE, h]);
      }
  }

  lemma OwnEventHappens(n: Node, f: Fate, e: Event)
    requires e in Own(n)
    ensures e in Exec(n, f)
  {
  }

  /** Each unit names something that happens in some run. */
  lemma {:induction false} UnitsCanHappen(n: Node, u: string) returns (f: Fate, e: Event)
    requires u in Units(n)
    ensures e in Exec(n, f) && MustReport(e) && EventText(e) == u
    decreases n
  {
    hide Exec, Units;
    UnitOrigin(n, u);
    if own :| own in Own(n) && MustReport(own) && EventText(own) == u {
      f, e := NO_FATE, own;
      OwnEventHappens(n, f, e);
    } else {
      var k :| k in Kids(n) && u in Units(k);
      var g;
      g, e := UnitsCanHappen(k, u);
      f := NodeCanReach(n, k, g, e);
    }
  }

  /** A text is extracted exactly when some run of the command executes a simple command or opens a file
      that has this text: nothing is missed, whatever branches are taken, and nothing else is listed. */
  lemma ExtractionIsExact(stmts: seq<Node>, u: string)
    ensures u in UnitsOf(stmts)
       <==> exists f, e :: e in ExecList(stmts, f, 0) && MustReport(e) && EventText(e) == u
  {
    hide Exec, Units, ExecList;
    UnitsOfMember(stmts, u);
    if u in UnitsOf(stmts) {
      var k :| k in stmts && u in Units(k);
      var g, e := UnitsCanHappen(k, u);
      var f := ListCanReach(stmts, k, g, e);
    }
    if f, e :| e in ExecList(stmts, f, 0) && MustReport(e) && EventText(e) == u {
      var k, g := ListOrigin(stmts, f, 0, e);
      RunsAreReported(k, g, e);
    }
  }

  lemma ReportIsNotBlank(e: Event)
    requires MustReport(e)
    ensures TrimSpace(EventText(e)) != ""
  {
    hide TrimSpace;
    match e
    case Ran(assigns, args) =>
      var prefix := Join(seq(|assigns|, i requires 0 <= i < |assigns| => AssignText(assigns[i])), " ");
      TrimIdempotent(prefix);
      TrimIdempotent((if prefix == "" then "" else prefix + " ") + PrintWords(args));
    case Wrote(op, target) =>
      var t := TrimSpace(WordText(target));
      FieldsSplit(op.Text(), ' ', t);
      FieldsOfWord(op.Text());
      BlankHasNoFields(EventText(e));
  }

  /** No unit is blank. */
  lemma {:induction false} UnitsAreNotBlank(n: Node, u: string)
    requires u in Units(n)
    ensures TrimSpace(u) != ""
    decreases n
  {
    hide Units, TrimSpace, EventText, MustReport, Own;
    UnitOrigin(n, u);
    if e :| e in Own(n) && MustReport(e) && EventText(e) == u {
      ReportIsNotBlank(e);
    } else {
      var k :| k in Kids(n) && u in Units(k);
      UnitsAreNotBlank(k, u);
    }
  }
}
