/** The gate in front of the local tools: what may pass unasked, and what an approval adds. */
module LocalGate {
  import opened Text
  import opened Glob
  import opened CommandRule
  import opened DefaultRule
  import Approvals

  datatype Tool = Bash | Write | Edit | OtherTool

  datatype Entry = Entry(tool: Tool, pattern: string)

  /** Patterns by conversation. */
  type Allowed = map<int, seq<Entry>>

  // Matching

  /** A malformed path pattern matches nothing here. */
  predicate MatchPath(pattern: string, value: string) {
    Parse(pattern).Some? && MatchTerms(Parse(pattern).value, value)
  }

  predicate MatchLocalPattern(tool: Tool, pattern: string, subject: string) {
    || pattern == "*" || pattern == subject
    || (if tool == Bash then MatchCommandRule(pattern, subject) else MatchPath(pattern, subject))
  }

  function EntriesOf(allowed: Allowed, conv: int): seq<Entry> {
    if conv in allowed then allowed[conv] else []
  }

  predicate Passes(entries: seq<Entry>, tool: Tool, subject: string) {
    exists e | e in entries :: e.tool == tool && MatchLocalPattern(tool, e.pattern, subject)
  }

  predicate AllPass(entries: seq<Entry>, tool: Tool, subjects: seq<string>) {
    entries != [] && forall s | s in subjects :: Passes(entries, tool, s)
  }

  // What a call is about

  /** A bash command is judged by its units, or as a whole if it cannot be split. */
  function Subjects(tool: Tool, text: string, units: Option<seq<string>>): seq<string> {
    var t := TrimSpace(text);
    if t == "" || tool == OtherTool then []
    else if tool == Bash && units.Some? && units.value != [] then units.value
    else [t]
  }

  function DefaultPattern(tool: Tool, subject: string): string {
    if tool == Bash then DefaultBashPattern(subject) else subject
  }

  function DefaultPatterns(tool: Tool, subjects: seq<string>): (r: seq<string>)
    ensures |r| == |subjects|
  {
    seq(|subjects|, i requires 0 <= i < |subjects| => DefaultPattern(tool, subjects[i]))
  }

  function NonBlank(lines: seq<string>): seq<string> {
    if lines == [] then []
    else (if TrimSpace(lines[0]) == "" then [] else [TrimSpace(lines[0])]) + NonBlank(lines[1..])
  }

  function EditedPatterns(edited: seq<string>): seq<string> {
    if edited == [] then [] else NonBlank(Approvals.Lines(edited[0])) + EditedPatterns(edited[1..])
  }

  /** The edited patterns, line by line, or else the default ones. */
  function PatternsOf(tool: Tool, subjects: seq<string>, edited: seq<string>): seq<string> {
    if EditedPatterns(edited) != [] then EditedPatterns(edited) else DefaultPatterns(tool, subjects)
  }

  function Remembered(entries: seq<Entry>, tool: Tool, pattern: string): seq<Entry> {
    var p := TrimSpace(pattern);
    if p == "" || Entry(tool, p) in entries then entries else entries + [Entry(tool, p)]
  }

  function AllRemembered(entries: seq<Entry>, tool: Tool, patterns: seq<string>): seq<Entry>
    decreases |patterns|
  {
    if patterns == [] then entries else AllRemembered(Remembered(entries, tool, patterns[0]), tool, patterns[1..])
  }

  datatype Verdict = PassesUnasked | PassesAsked | Refused

  /** The gate on one call; `answer` is what the user would say, None without a way to ask. */
  function Judge(entries: seq<Entry>, tool: Tool, subjects: seq<string>,
        answer: Option<Approvals.Response>): (Verdict, seq<Entry>) {
    if subjects == [] || AllPass(entries, tool, subjects) then (PassesUnasked, entries)
    else match answer
         case None => (Refused, entries)
         case Some(DenyIt) => (Refused, entries)
         case Some(AllowOnce) => (PassesAsked, entries)
         case Some(AllowAll(edited)) => (PassesAsked, AllRemembered(entries, tool, PatternsOf(tool, subjects, edited)))
  }

  // The same without subjects and pattern lists

  /** A pattern of the tool takes the text: literally, as the lone star, as a command rule or as a path pattern. */
  predicate IsTaken(entries: seq<Entry>, tool: Tool, subject: string) {
    exists e | e in entries && e.tool == tool ::
      || e.pattern == "*" || e.pattern == subject
      || (tool == Bash && MatchCommandRule(e.pattern, subject))
      || (tool != Bash && Parse(e.pattern).Some? && MatchTerms(Parse(e.pattern).value, subject))
  }

  /** When a call needs no question: every unit of a command is taken, or the whole if it cannot be split, or the path; a
      blank one and every other tool are not the gate's business. */
  predicate IsKnown(entries: seq<Entry>, tool: Tool, text: string, units: Option<seq<string>>) {
    if tool == OtherTool || TrimSpace(text) == "" then true
    else if tool == Bash && units.Some? && units.value != [] then
      entries != [] && forall u | u in units.value :: IsTaken(entries, Bash, u)
    else entries != [] && IsTaken(entries, tool, TrimSpace(text))
  }

  /** What an answer for the session adds: the lines of the edits, if one of them is not blank; otherwise, for each unit of
      a command its first word with a star, and a path as it is. */
  ghost predicate IsRemembered(tool: Tool, text: string, units: Option<seq<string>>, edited: seq<string>, pattern: string) {
    if exists e, line | e in edited && Approvals.IsLine(e, line) :: TrimSpace(line) != "" then
      pattern != "" && exists e, line | e in edited && Approvals.IsLine(e, line) :: TrimSpace(line) == pattern
    else if tool != Bash then pattern == TrimSpace(text) && pattern != ""
    else if units.Some? && units.value != [] then exists u | u in units.value :: IsDefaultOf(u, pattern)
    else IsDefaultOf(TrimSpace(text), pattern)
  }

  predicate IsDefaultOf(command: string, pattern: string) {
    Fields(command) != [] && pattern == Fields(command)[0] + " *"
  }

  lemma SomethingToJudge(tool: Tool, text: string, units: Option<seq<string>>)
    ensures Subjects(tool, text, units) == [] <==> tool == OtherTool || TrimSpace(text) == ""
  {
  }

  lemma KnownExactly(entries: seq<Entry>, tool: Tool, text: string, units: Option<seq<string>>)
    ensures var subjects := Subjects(tool, text, units);
            subjects == [] || AllPass(entries, tool, subjects) <==> IsKnown(entries, tool, text, units)
  {
    hide TrimSpace, MatchCommandRule, MatchTerms, Parse;
    forall s ensures Passes(entries, tool, s) <==> IsTaken(entries, tool, s) {}
  }

  predicate NoneMatches(entries: seq<Entry>, tool: Tool, subject: string) {
    forall e | e in entries :: e.tool == tool ==> !MatchLocalPattern(tool, e.pattern, subject)
  }

  lemma NoMatchNoPass(entries: seq<Entry>, tool: Tool, subject: string)
    requires NoneMatches(entries, tool, subject)
    ensures !Passes(entries, tool, subject)
  {
  }

  class LocalToolGate {
    var allowed: Allowed

    constructor ()
      ensures allowed == map[]
    {
      allowed := map[];
    }

    method AllMatch(conv: int, tool: Tool, subjects: seq<string>) returns (ok: bool)
      ensures ok == AllPass(EntriesOf(allowed, conv), tool, subjects)
    {
      hide MatchLocalPattern;
      if conv !in allowed || |allowed[conv]| == 0 {
        return false;
      }
      var entries := allowed[conv];
      for i := 0 to |subjects|
        invariant forall k | 0 <= k < i :: Passes(entries, tool, subjects[k])
      {
        var matched := false;
        var j := 0;
        while j < |entries| && !matched
          invariant j <= |entries|
          invariant matched ==> Passes(entries, tool, subjects[i])
          invariant !matched ==> NoneMatches(entries[..j], tool, subjects[i])
        {
          if entries[j].tool == tool {
            matched := MatchLocalPattern(tool, entries[j].pattern, subjects[i]);
            assert entries[j] in entries;
          }
          assert entries[..j + 1] == entries[..j] + [entries[j]];
          j := j + 1;
        }
        assert entries[..|entries|] == entries;
        if !matched {
          NoMatchNoPass(entries, tool, subjects[i]);
          assert subjects[i] in subjects;
          return false;
        }
      }
      ok := true;
    }

    method Remember(conv: int, tool: Tool, pattern: string)
      modifies this
      ensures EntriesOf(allowed, conv) == Remembered(old(EntriesOf(allowed, conv)), tool, pattern)
      ensures forall c | c != conv :: EntriesOf(allowed, c) == old(EntriesOf(allowed, c))
    {
      var p := TrimSpace(pattern);
      if p == "" {
        return;
      }
      var entries := EntriesOf(allowed, conv);
      allowed := allowed[conv := entries];
      for i := 0 to |entries|
        invariant forall k | 0 <= k < i :: entries[k] != Entry(tool, p)
      {
        if entries[i].tool == tool && entries[i].pattern == p {
          return;
        }
      }
      allowed := allowed[conv := entries + [Entry(tool, p)]];
    }

    method Reset(conv: int)
      modifies this
      ensures allowed == old(allowed) - {conv}
    {
      allowed := allowed - {conv};
    }

    /** A call with its command or path; `units` is what splitting a command gives. */
    method Middleware(conv: int, tool: Tool, text: string, units: Option<seq<string>>, answer: Option<Approvals.Response>)
      returns (v: Verdict)
      modifies this
      ensures (v, EntriesOf(allowed, conv))
            == Judge(old(EntriesOf(allowed, conv)), tool, Subjects(tool, text, units), answer)
      ensures v == PassesUnasked <==> IsKnown(old(EntriesOf(allowed, conv)), tool, text, units)
      ensures v == PassesAsked <==> v != PassesUnasked && answer.Some? && !answer.value.DenyIt?
      ensures v == PassesAsked && answer.value.AllowAll? ==>
                forall e :: e in EntriesOf(allowed, conv)
                       <==> || e in old(EntriesOf(allowed, conv))
                            || (e.tool == tool && IsRemembered(tool, text, units, answer.value.edited, e.pattern))
      ensures !(v == PassesAsked && answer.value.AllowAll?) ==> EntriesOf(allowed, conv) == old(EntriesOf(allowed, conv))
      ensures forall c | c != conv :: EntriesOf(allowed, c) == old(EntriesOf(allowed, c))
    {
      hide Remembered, AllPass, Subjects, IsKnown, IsRemembered;
      KnownExactly(EntriesOf(allowed, conv), tool, text, units);
      SomethingToJudge(tool, text, units);
      if tool != OtherTool && TrimSpace(text) != "" && answer.Some? && answer.value.AllowAll? {
        RememberedExactly(EntriesOf(allowed, conv), tool, text, units, answer.value.edited);
      }
      var subjects := Subjects(tool, text, units);
      if |subjects| == 0 {
        return PassesUnasked;
      }
      var known := AllMatch(conv, tool, subjects);
      if known {
        return PassesUnasked;
      }
      match answer {
        case None => return Refused;
        case Some(response) =>
          match response {
            case DenyIt => return Refused;
            case AllowOnce => return PassesAsked;
            case AllowAll(edited) =>
              var patterns := PatternsOf(tool, subjects, edited);
              assert patterns[0..] == patterns;
              for i := 0 to |patterns|
                invariant AllRemembered(EntriesOf(allowed, conv), tool, patterns[i..])
                       == AllRemembered(old(EntriesOf(allowed, conv)), tool, patterns)
                invariant forall c | c != conv :: EntriesOf(allowed, c) == old(EntriesOf(allowed, c))
              {
                assert patterns[i..][0] == patterns[i] && patterns[i..][1..] == patterns[i + 1..];
                Remember(conv, tool, patterns[i]);
              }
              assert patterns[|patterns|..] == [];
              return PassesAsked;
          }
      }
    }
  }

  // What an answer for the session adds

  lemma {:induction false} NonBlankExactly(lines: seq<string>, p: string)
    ensures p in NonBlank(lines) <==> exists l | l in lines :: TrimSpace(l) == p && p != ""
    ensures NonBlank(lines) == [] <==> forall l | l in lines :: TrimSpace(l) == ""
  {
    hide TrimSpace;
    if lines != [] {
      NonBlankExactly(lines[1..], p);
      assert lines == [lines[0]] + lines[1..];
    }
  }

  /** A line of an edit that is not blank, without the blanks around it. */
  ghost predicate IsEdit(edited: seq<string>, p: string) {
    p != "" && exists e, line | e in edited && Approvals.IsLine(e, line) :: TrimSpace(line) == p
  }

  lemma EditsAreLines(edited: seq<string>)
    ensures (exists p :: IsEdit(edited, p))
       <==> exists e, line | e in edited && Approvals.IsLine(e, line) :: TrimSpace(line) != ""
  {
    hide TrimSpace, Approvals.IsLine;
    if e, line :| e in edited && Approvals.IsLine(e, line) && TrimSpace(line) != "" {
      assert IsEdit(edited, TrimSpace(line));
    }
  }

  lemma {:induction false} EditedExactly(edited: seq<string>, p: string)
    ensures p in EditedPatterns(edited) <==> IsEdit(edited, p)
    decreases |edited|
  {
    hide TrimSpace, Approvals.IsLine;
    if edited != [] {
      EditedExactly(edited[1..], p);
      NonBlankExactly(Approvals.Lines(edited[0]), p);
      forall l ensures l in Approvals.Lines(edited[0]) <==> Approvals.IsLine(edited[0], l) {
        Approvals.LinesExactly(edited[0], l);
      }
      assert edited == [edited[0]] + edited[1..];
    }
  }

  lemma DefaultsExactly(tool: Tool, subjects: seq<string>, p: string)
    requires p != ""
    ensures IsPattern(DefaultPatterns(tool, subjects), p)
       <==> exists s | s in subjects :: if tool == Bash then IsDefaultOf(s, p) else TrimSpace(s) == p
  {
    hide TrimSpace, Fields;
    var patterns := DefaultPatterns(tool, subjects);
    forall s ensures TrimSpace(DefaultPattern(tool, s)) == p <==> if tool == Bash then IsDefaultOf(s, p) else TrimSpace(s) == p {
      TrimmedDefault(s);
    }
    if q :| q in patterns && TrimSpace(q) == p {
      var i :| 0 <= i < |patterns| && patterns[i] == q;
      assert subjects[i] in subjects && DefaultPattern(tool, subjects[i]) == q;
    }
    if s :| s in subjects && TrimSpace(DefaultPattern(tool, s)) == p {
      var i :| 0 <= i < |subjects| && subjects[i] == s;
      assert patterns[i] in patterns;
    }
  }

  lemma TrimmedDefault(s: string)
    ensures TrimSpace(DefaultBashPattern(s)) == if Fields(s) == [] then "" else Fields(s)[0] + " *"
  {
    BlankHasNoFields(s);
    if Fields(s) != [] {
      var f := Fields(s)[0];
      FieldsAreWords("", s);
      assert f in Fields(s) && !IsSpace(f[0]);
      TrimmedStays(f + " *");
    }
  }

  lemma RememberedExactly(entries: seq<Entry>, tool: Tool, text: string, units: Option<seq<string>>, edited: seq<string>)
    requires tool != OtherTool && TrimSpace(text) != ""
    ensures var patterns := PatternsOf(tool, Subjects(tool, text, units), edited);
            forall e :: e in AllRemembered(entries, tool, patterns)
                   <==> e in entries || (e.tool == tool && IsRemembered(tool, text, units, edited, e.pattern))
  {
    hide AllRemembered, IsPattern, IsRemembered, PatternsOf, Subjects;
    var patterns := PatternsOf(tool, Subjects(tool, text, units), edited);
    forall e ensures e in AllRemembered(entries, tool, patterns)
                <==> e in entries || (e.tool == tool && IsRemembered(tool, text, units, edited, e.pattern)) {
      RememberedMember(entries, tool, patterns, e);
      IsRememberedExactly(tool, text, units, edited, e.pattern);
    }
  }

  lemma IsRememberedExactly(tool: Tool, text: string, units: Option<seq<string>>, edited: seq<string>, p: string)
    requires tool != OtherTool && TrimSpace(text) != ""
    ensures IsRemembered(tool, text, units, edited, p)
       <==> p != "" && IsPattern(PatternsOf(tool, Subjects(tool, text, units), edited), p)
  {
    hide TrimSpace, Approvals.IsLine, EditedPatterns, DefaultPatterns, IsDefaultOf;
    var subjects, lines := Subjects(tool, text, units), EditedPatterns(edited);
    forall q ensures q in lines <==> IsEdit(edited, q) { EditedExactly(edited, q); }
    if lines != [] {
      assert lines[0] in lines && IsEdit(edited, lines[0]);
      forall q | q in lines ensures TrimSpace(q) == q { TrimIdempotentEdit(edited, q); }
      assert IsPattern(lines, p) <==> p in lines;
    } else {
      EditsAreLines(edited);
      if p != "" {
        DefaultsExactly(tool, subjects, p);
        TrimIdempotent(text);
      }
      DefaultIsNotEmpty(p);
    }
  }

  lemma DefaultIsNotEmpty(p: string)
    ensures forall u :: IsDefaultOf(u, p) ==> p != ""
  {
  }

  lemma TrimIdempotentEdit(edited: seq<string>, q: string)
    requires IsEdit(edited, q)
    ensures TrimSpace(q) == q
  {
    hide Approvals.IsLine, TrimSpace;
    var e, line :| e in edited && Approvals.IsLine(e, line) && TrimSpace(line) == q;
    TrimIdempotent(line);
  }

  // Whole runs

  datatype Operation =
    | Call(conv: int, tool: Tool, subjects: seq<string>, answer: Option<Approvals.Response>)
    | Reset(conv: int)

  function After(entries: seq<Entry>, conv: int, op: Operation): seq<Entry> {
    if op.conv != conv then entries
    else match op
         case Call(_, tool, subjects, answer) => Judge(entries, tool, subjects, answer).1
         case Reset(_) => []
  }

  /** The patterns of a conversation after some operations. */
  function Run(conv: int, ops: seq<Operation>): seq<Entry> {
    if ops == [] then [] else After(Run(conv, ops[..|ops| - 1]), conv, ops[|ops| - 1])
  }

  predicate IsDuplicateFree(entries: seq<Entry>) {
    forall i, j | 0 <= i < j < |entries| :: entries[i] != entries[j]
  }

  lemma {:induction false} RememberedGrows(entries: seq<Entry>, tool: Tool, patterns: seq<string>)
    ensures entries <= AllRemembered(entries, tool, patterns)
    ensures IsDuplicateFree(entries) ==> IsDuplicateFree(AllRemembered(entries, tool, patterns))
    decreases |patterns|
  {
    hide TrimSpace;
    if patterns != [] {
      RememberedGrows(Remembered(entries, tool, patterns[0]), tool, patterns[1..]);
    }
  }

  predicate IsPattern(patterns: seq<string>, pattern: string) {
    exists p | p in patterns :: TrimSpace(p) == pattern
  }

  /** What is added is exactly the non-blank patterns, trimmed. */
  lemma {:induction false} RememberedMember(entries: seq<Entry>, tool: Tool, patterns: seq<string>, e: Entry)
    ensures e in AllRemembered(entries, tool, patterns)
       <==> e in entries || (e.tool == tool && e.pattern != "" && IsPattern(patterns, e.pattern))
    decreases |patterns|
  {
    hide TrimSpace;
    if patterns != [] {
      RememberedMember(Remembered(entries, tool, patterns[0]), tool, patterns[1..], e);
      assert IsPattern(patterns, e.pattern)
            <==> TrimSpace(patterns[0]) == e.pattern || IsPattern(patterns[1..], e.pattern) by {
        FirstPattern(patterns, e.pattern);
      }
    }
  }

  lemma FirstPattern(patterns: seq<string>, pattern: string)
    requires patterns != []
    ensures IsPattern(patterns, pattern) <==> TrimSpace(patterns[0]) == pattern || IsPattern(patterns[1..], pattern)
  {
    hide TrimSpace;
    assert patterns == [patterns[0]] + patterns[1..];
  }

  /** The answer that allowed an entry: given to a question in this conversation, about this tool. */
  predicate AllowedBy(op: Operation, before: seq<Entry>, conv: int, e: Entry) {
    && op.Call? && op.conv == conv && op.tool == e.tool && Judge(before, op.tool, op.subjects, op.answer).0 == PassesAsked
    && op.answer.Some? && op.answer.value.AllowAll?
    && IsPattern(PatternsOf(op.tool, op.subjects, op.answer.value.edited), e.pattern)
  }

  lemma OneStep(before: seq<Entry>, conv: int, op: Operation, e: Entry)
    ensures IsDuplicateFree(before) ==> IsDuplicateFree(After(before, conv, op))
    ensures e in After(before, conv, op) ==> (e in before && op != Reset(conv)) || AllowedBy(op, before, conv, e)
    ensures op != Reset(conv) ==> before <= After(before, conv, op)
  {
    hide PatternsOf, AllPass, AllRemembered, IsPattern, IsDuplicateFree;
    assert IsDuplicateFree([]) by { NothingIsDuplicateFree(); }
    if op.Call? && op.conv == conv && op.answer.Some? && op.answer.value.AllowAll? {
      var patterns := PatternsOf(op.tool, op.subjects, op.answer.value.edited);
      RememberedGrows(before, op.tool, patterns);
      RememberedMember(before, op.tool, patterns, e);
    }
  }

  lemma NothingIsDuplicateFree()
    ensures IsDuplicateFree([])
  {
  }

  /** An entry was allowed by the k-th operation, and the conversation was not reset since. */
  predicate IsFrom(conv: int, ops: seq<Operation>, e: Entry, k: nat)
    requires k < |ops|
  {
    AllowedBy(ops[k], Run(conv, ops[..k]), conv, e) && Reset(conv) !in ops[k + 1..]
  }

  /** Over every run: a conversation's patterns are free of duplicates, and each comes from an allow-all answer given in
      that conversation since its last reset. */
  lemma {:induction false} PatternsComeFromAnswers(conv: int, ops: seq<Operation>, e: Entry)
    ensures IsDuplicateFree(Run(conv, ops))
    ensures e in Run(conv, ops) ==> exists k | 0 <= k < |ops| :: IsFrom(conv, ops, e, k)
    decreases |ops|
  {
    hide AllowedBy, After, IsDuplicateFree;
    if ops == [] {
      assert IsDuplicateFree([]) by { NothingIsDuplicateFree(); }
    } else {
      var n := |ops| - 1;
      PatternsComeFromAnswers(conv, ops[..n], e);
      OneStep(Run(conv, ops[..n]), conv, ops[n], e);
      if e in Run(conv, ops) {
        if AllowedBy(ops[n], Run(conv, ops[..n]), conv, e) {
          assert IsFrom(conv, ops, e, n);
        } else {
          var k :| 0 <= k < n && IsFrom(conv, ops[..n], e, k);
          StillFrom(conv, ops, e, k);
        }
      }
    }
  }

  lemma StillFrom(conv: int, ops: seq<Operation>, e: Entry, k: nat)
    requires k < |ops| - 1 && IsFrom(conv, ops[..|ops| - 1], e, k) && ops[|ops| - 1] != Reset(conv)
    ensures IsFrom(conv, ops, e, k)
  {
    hide AllowedBy, Run;
    var n := |ops| - 1;
    assert ops[..n][..k] == ops[..k] && ops[..n][k] == ops[k];
    assert ops[k + 1..] == ops[..n][k + 1..] + [ops[n]];
  }

  /** Between resets the patterns only grow, at the end. */
  lemma {:induction false} PatternsOnlyGrow(conv: int, ops: seq<Operation>, more: seq<Operation>)
    requires Reset(conv) !in more
    ensures Run(conv, ops) <= Run(conv, ops + more)
    decreases |more|
  {
    hide After;
    if more == [] {
      assert ops + more == ops;
    } else {
      var n := |more| - 1;
      assert (ops + more)[..|ops + more| - 1] == ops + more[..n];
      PatternsOnlyGrow(conv, ops, more[..n]);
      assert more[n] in more;
      OneStep(Run(conv, ops + more[..n]), conv, more[n], Entry(Bash, ""));
    }
  }

  /** A refused call changes nothing, and a call passes unasked only through a pattern for each of its subjects. */
  lemma RefusalChangesNothing(entries: seq<Entry>, tool: Tool, subjects: seq<string>, answer: Option<Approvals.Response>)
    ensures var (v, after) := Judge(entries, tool, subjects, answer);
            && (v == Refused ==> after == entries)
            && (v == PassesUnasked <==>
                  subjects == [] || (entries != [] && forall s | s in subjects :: Passes(entries, tool, s)))
            && (v == Refused <==>
                  v != PassesUnasked && (answer == None || answer == Some(Approvals.DenyIt)))
  {
  }

  /** The operations that can change the patterns of a conversation: its resets, and calls answered with allow-all. */
  function Effective(conv: int, ops: seq<Operation>): seq<Operation> {
    if ops == [] then []
    else
      var n := |ops| - 1;
      var op := ops[n];
      Effective(conv, ops[..n])
      + if op.conv == conv && (op.Call? ==> op.answer.Some? && op.answer.value.AllowAll?) then [op] else []
  }

  /** Over every run: refused calls, calls allowed once and other conversations leave no trace in the patterns. */
  lemma {:induction false} OnlyAllowAllMatters(conv: int, ops: seq<Operation>)
    ensures Run(conv, ops) == Run(conv, Effective(conv, ops))
    decreases |ops|
  {
    hide AllPass, AllRemembered, PatternsOf;
    if ops != [] {
      var n := |ops| - 1;
      var before := Effective(conv, ops[..n]);
      OnlyAllowAllMatters(conv, ops[..n]);
      assert (before + [ops[n]])[..|before + [ops[n]]| - 1] == before && before + [] == before;
      assert Run(conv, before + [ops[n]]) == After(Run(conv, before), conv, ops[n]);
      assert Run(conv, ops) == After(Run(conv, ops[..n]), conv, ops[n]);
    }
  }

  // The default patterns

  /** What extractSubjects gives: units that are not blank, or a trimmed path. */
  predicate IsSubject(tool: Tool, s: string) {
    TrimSpace(s) != "" && (tool == Bash || TrimSpace(s) == s)
  }

  lemma SubjectsAreSubjects(tool: Tool, text: string, units: Option<seq<string>>)
    requires units.Some? ==> forall u | u in units.value :: TrimSpace(u) != ""
    ensures forall s | s in Subjects(tool, text, units) :: IsSubject(tool, s)
  {
    TrimIdempotent(text);
  }

  lemma TrimmedStays(p: string)
    requires p != "" && !IsSpace(p[0]) && !IsSpace(p[|p| - 1])
    ensures TrimSpace(p) == p
  {
  }

  lemma DefaultIsTrimmed(tool: Tool, subject: string)
    requires IsSubject(tool, subject)
    ensures var p := DefaultPattern(tool, subject); p != "" && TrimSpace(p) == p
  {
    if tool == Bash {
      BlankHasNoFields(subject);
      var f := Fields(subject)[0];
      FieldsAreWords("", subject);
      assert f in Fields(subject) && !IsSpace(f[0]);
      TrimmedStays(f + " *");
    }
  }

  /** The default of some subject accepts `s`. */
  predicate AcceptedByDefault(tool: Tool, subjects: seq<string>, s: string) {
    exists d | d in subjects :: MatchLocalPattern(tool, DefaultPattern(tool, d), s)
  }

  lemma DefaultMember(tool: Tool, subjects: seq<string>, pattern: string)
    requires forall s | s in subjects :: IsSubject(tool, s)
    ensures IsPattern(DefaultPatterns(tool, subjects), pattern) <==> exists d | d in subjects :: DefaultPattern(tool, d) == pattern
  {
    hide TrimSpace, DefaultPattern, IsSubject;
    var patterns := DefaultPatterns(tool, subjects);
    forall d | d in subjects ensures TrimSpace(DefaultPattern(tool, d)) == DefaultPattern(tool, d) { DefaultIsTrimmed(tool, d); }
    if p :| p in patterns && TrimSpace(p) == pattern {
      var i :| 0 <= i < |patterns| && patterns[i] == p;
      assert subjects[i] in subjects && DefaultPattern(tool, subjects[i]) == pattern;
    }
    if d :| d in subjects && DefaultPattern(tool, d) == pattern {
      var i :| 0 <= i < |subjects| && subjects[i] == d;
      assert patterns[i] == pattern && patterns[i] in patterns;
    }
  }

  /** After the defaults have been remembered, a subject passes exactly when it passed before or a default accepts it. */
  lemma PassesAfterwards(entries: seq<Entry>, tool: Tool, subjects: seq<string>, s: string)
    requires forall d | d in subjects :: IsSubject(tool, d)
    ensures Passes(AllRemembered(entries, tool, DefaultPatterns(tool, subjects)), tool, s)
       <==> Passes(entries, tool, s) || AcceptedByDefault(tool, subjects, s)
  {
    hide TrimSpace, MatchLocalPattern, AllRemembered, IsPattern, DefaultPattern, IsSubject;
    var patterns := DefaultPatterns(tool, subjects);
    var after := AllRemembered(entries, tool, patterns);
    if e :| e in after && e.tool == tool && MatchLocalPattern(tool, e.pattern, s) {
      RememberedMember(entries, tool, patterns, e);
      DefaultMember(tool, subjects, e.pattern);
    }
    if e :| e in entries && e.tool == tool && MatchLocalPattern(tool, e.pattern, s) {
      RememberedMember(entries, tool, patterns, e);
    }
    if d :| d in subjects && MatchLocalPattern(tool, DefaultPattern(tool, d), s) {
      var e := Entry(tool, DefaultPattern(tool, d));
      DefaultIsTrimmed(tool, d);
      DefaultMember(tool, subjects, e.pattern);
      RememberedMember(entries, tool, patterns, e);
    }
  }

  lemma SomethingIsRemembered(entries: seq<Entry>, tool: Tool, subjects: seq<string>)
    requires subjects != [] && forall d | d in subjects :: IsSubject(tool, d)
    ensures AllRemembered(entries, tool, DefaultPatterns(tool, subjects)) != []
  {
    hide TrimSpace, DefaultPattern, IsSubject, IsPattern, AllRemembered;
    var d := subjects[0];
    DefaultIsTrimmed(tool, d);
    DefaultMember(tool, subjects, DefaultPattern(tool, d));
    RememberedMember(entries, tool, DefaultPatterns(tool, subjects), Entry(tool, DefaultPattern(tool, d)));
  }

  /** After an unedited allow-all, whatever was remembered before, the same call passes without a question if and only if
      each of its subjects passed already or is accepted by the default of some subject. */
  lemma ApprovedPassesExactly(entries: seq<Entry>, tool: Tool, subjects: seq<string>, later: Option<Approvals.Response>)
    requires forall s | s in subjects :: IsSubject(tool, s)
    ensures var after := Judge(entries, tool, subjects, Some(Approvals.AllowAll([]))).1;
            Judge(after, tool, subjects, later).0 == PassesUnasked
            <==> forall s | s in subjects :: Passes(entries, tool, s) || AcceptedByDefault(tool, subjects, s)
  {
    hide TrimSpace, Passes, AllRemembered, AcceptedByDefault, IsSubject;
    assert EditedPatterns([]) == [];
    if subjects != [] && !AllPass(entries, tool, subjects) {
      forall s ensures Passes(AllRemembered(entries, tool, DefaultPatterns(tool, subjects)), tool, s)
                  <==> Passes(entries, tool, s) || AcceptedByDefault(tool, subjects, s) {
        PassesAfterwards(entries, tool, subjects, s);
      }
      SomethingIsRemembered(entries, tool, subjects);
    }
  }

  /** The default of a subject accepts that subject exactly when it is a path, a command accepted by its own rule, or
      itself of the form of its rule. */
  lemma OwnDefaultExactly(tool: Tool, s: string)
    requires IsSubject(tool, s)
    ensures MatchLocalPattern(tool, DefaultPattern(tool, s), s)
       <==> tool != Bash || AcceptsOwnCommand(s) || s == DefaultBashPattern(s)
  {
    hide TrimSpace, AcceptsOwnCommand, MatchCommandRule;
    if tool == Bash {
      BlankHasNoFields(s);
      DefaultRuleExactly(s);
      TokensOfCommand(s);
      assert |DefaultBashPattern(s)| > 1;
    }
  }

  /** So a call always passes again when each subject is a path or a command accepted by its own rule. */
  lemma ApprovedPassesUnasked(entries: seq<Entry>, tool: Tool, subjects: seq<string>, later: Option<Approvals.Response>)
    requires forall s | s in subjects :: IsSubject(tool, s) && (tool == Bash ==> AcceptsOwnCommand(s))
    ensures var after := Judge(entries, tool, subjects, Some(Approvals.AllowAll([]))).1;
            Judge(after, tool, subjects, later) == (PassesUnasked, after)
  {
    hide TrimSpace, MatchLocalPattern, DefaultPattern, AcceptsOwnCommand, AllPass, PatternsOf, AllRemembered;
    forall s | s in subjects ensures AcceptedByDefault(tool, subjects, s) {
      OwnDefaultExactly(tool, s);
    }
    ApprovedPassesExactly(entries, tool, subjects, later);
  }

  /** For the first command of a conversation, of one unit, this decides: after the approval it passes if and only if its
      own rule accepts it or it is of the form of its rule. */
  lemma FirstUnitIsAskedAgainExactly(unit: string)
    requires TrimSpace(unit) != ""
    ensures AllPass(Judge([], Bash, [unit], Some(Approvals.AllowAll([]))).1, Bash, [unit])
       <==> AcceptsOwnCommand(unit) || unit == DefaultBashPattern(unit)
  {
    hide TrimSpace, AcceptsOwnCommand, MatchLocalPattern, DefaultPattern, AllRemembered;
    assert IsSubject(Bash, unit);
    ApprovedPassesExactly([], Bash, [unit], None);
    OwnDefaultExactly(Bash, unit);
    assert unit in [unit] && !Passes([], Bash, unit);
    assert AcceptedByDefault(Bash, [unit], unit) <==> MatchLocalPattern(Bash, DefaultPattern(Bash, unit), unit);
  }

  /** An input that is asked again although it begins with no assignment: two flags in one word and two operands. */
  lemma ShortFlagsAreAskedAgain()
    ensures var unit := "-ab" + (" " + ("x" + (" " + "y")));
            DefaultPattern(Bash, unit) == "-ab" + " *" && !MatchCommandRule("-ab" + " *", unit)
  {
    hide Tokens, Fields, IsWildcardAll, Operands, Stripped, MatchArgs, TrimSpace;
    var unit, rule := "-ab" + (" " + ("x" + (" " + "y"))), "-ab" + " *";
    TokensOfFlags(unit);
    TokensOfFlagRule(rule);
    OperandsOfFlags();
    NotStripped(["-a", "-b", "x", "y"]);
    assert ["-a", "-b", "x", "y"][1..] == ["-b", "x", "y"] && ["-a", "-b", "*"][1..] == ["-b", "*"];
  }

  lemma OperandsOfFlags()
    ensures !MatchArgs(Operands(["-b", "*"], true), Operands(["-b", "x", "y"], false))
  {
    var r, c := ["-b", "*"], ["-b", "x", "y"];
    assert FirstOperand(r, true) == (Args([], map["-b" := "*"], false), 2) && r[2..] == [];
    assert FirstOperand(c, false) == (Args([], map["-b" := "x"], false), 2) && c[2..] == ["y"];
    assert Operands(["y"], false) == Args(["y"], map[], false).Then(Operands(["y"][1..], false));
    assert Operands(r, true) == Args([], map["-b" := "*"], false).Then(Operands([], true));
    assert Operands(c, false) == Args([], map["-b" := "x"], false).Then(Operands(["y"], false));
    assert |Operands(c, false).subCommands| >= 1;
  }

  lemma TokensOfFlags(unit: string)
    requires unit == "-ab" + (" " + ("x" + (" " + "y")))
    ensures Tokens(unit) == ["-a", "-b", "x", "y"] && Fields(unit) != [] && Fields(unit)[0] == "-ab"
  {
    hide Tokens, Fields;
    TokensOfCluster();
    var rest := "x" + " " + "y";
    assert unit == "-ab" + " " + rest && unit == "-ab" + [' '] + rest;
    TokensSplit("-ab", rest);
    TokensSplit("x", "y");
    TokensOfWord("x");
    TokensOfWord("y");
    FieldsSplit("-ab", ' ', rest);
    assert ["-a", "-b"] + (["x"] + ["y"]) == ["-a", "-b", "x", "y"];
  }

  lemma TokensOfFlagRule(rule: string)
    requires rule == "-ab" + " *"
    ensures Tokens(rule) == ["-a", "-b", "*"] && !IsWildcardAll(rule)
  {
    TokensOfCluster();
    assert rule == "-ab" + " " + "*";
    TokensSplit("-ab", "*");
    TokensOfWord("*");
    FieldsTrim(rule);
    assert Tokens(TrimSpace(rule)) == ["-a", "-b", "*"];
  }

  lemma TokensOfCluster()
    ensures Tokens("-ab") == ["-a", "-b"] && Fields("-ab") == ["-ab"]
  {
    FieldsOfWord("-ab");
    assert ExpandAll(["-ab"]) == ExpandShortFlag("-ab") + ExpandAll(["-ab"][1..]);
    assert ByteLen("b") == 1 + ByteLen("");
    assert "-ab"[1..] == "ab" && "ab"[1..] == "b" && "b"[1..] == "";
    OneAsciiFlag('b', "");
    OneAsciiFlag('a', "b");
    assert "a" + "b" == "ab" && "b" + "" == "b" && "-" + "a" == "-a" && "-" + "b" == "-b";
    assert ShortFlags("ab") == ["-a"] + (["-b"] + []);
    assert "-ab"[0] == '-' && "-ab"[1] == 'a' && '=' !in "-ab";
    assert ByteLen("ab") == 2;
  }

  lemma OneAsciiFlag(c: char, rest: string)
    requires c as int < 0x80
    ensures ShortFlags([c] + rest) == ["-" + [c]] + ShortFlags(rest)
  {
    assert ([c] + rest)[1..] == rest;
    assert seq(Utf8Len(c) - 1, _ => "") == [];
  }
}
