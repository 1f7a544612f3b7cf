/** path.Match of Go: the pattern language the rules use for single words. */
module Glob {
  import opened Text

  datatype Range = Range(lo: char, hi: char)

  datatype Term = Star | AnyOne | Literal(c: char) | Class(negated: bool, ranges: seq<Range>)

  /** Reads one possibly escaped bound of a character class; something must follow it. */
  function ClassBound(p: string): (r: Option<(char, string)>)
    ensures r.Some? ==> |r.value.1| < |p|
  {
    if p == "" || p[0] == '-' || p[0] == ']' then None
    else if p[0] == '\\' then (if |p| < 3 then None else Some((p[1], p[2..])))
    else if |p| < 2 then None
    else Some((p[0], p[1..]))
  }

  /** Reads ranges up to the closing bracket; there must be at least one. */
  function ClassRanges(p: string, seen: seq<Range>): (r: Option<(seq<Range>, string)>)
    ensures r.Some? ==> |r.value.1| < |p|
    decreases |p|
  {
    if p != "" && p[0] == ']' && seen != [] then Some((seen, p[1..]))
    else match ClassBound(p)
      case None => None
      case Some((lo, rest)) =>
        if rest[..1] == "-" then
          match ClassBound(rest[1..])
          case None => None
          case Some((hi, after)) => ClassRanges(after, seen + [Range(lo, hi)])
        else ClassRanges(rest, seen + [Range(lo, lo)])
  }

  /** The terms of a pattern; None when it is malformed (ErrBadPattern). */
  function Parse(p: string): Option<seq<Term>>
    decreases |p|
  {
    if p == "" then Some([])
    else if p[0] == '*' then Prepend(Star, Parse(p[1..]))
    else if p[0] == '?' then Prepend(AnyOne, Parse(p[1..]))
    else if p[0] == '\\' then (if |p| < 2 then None else Prepend(Literal(p[1]), Parse(p[2..])))
    else if p[0] == '[' then
      var negated := |p| > 1 && p[1] == '^';
      match ClassRanges(if negated then p[2..] else p[1..], [])
      case None => None
      case Some((ranges, rest)) => Prepend(Class(negated, ranges), Parse(rest))
    else Prepend(Literal(p[0]), Parse(p[1..]))
  }

  function Prepend(t: Term, ts: Option<seq<Term>>): Option<seq<Term>> {
    match ts case None => None case Some(rest) => Some([t] + rest)
  }

  predicate AcceptsChar(t: Term, c: char)
    requires !t.Star?
  {
    match t
    case AnyOne => c != '/'
    case Literal(x) => c == x
    case Class(negated, ranges) => negated != (exists r | r in ranges :: r.lo <= c <= r.hi)
  }

  // What a pattern means

  /** Every way to divide the text is considered. */
  predicate Means(ts: seq<Term>, v: string)
    decreases |ts| + |v|
  {
    if ts == [] then v == ""
    else if ts[0].Star? then
      Means(ts[1..], v) || (v != "" && v[0] != '/' && Means(ts, v[1..]))
    else v != "" && AcceptsChar(ts[0], v[0]) && Means(ts[1..], v[1..])
  }

  // How it is matched: chunk by chunk, each at the first byte where it fits

  /** What is left of a text from some byte on: the bytes left of a character that was begun, and the characters after it.
      Decoding at a byte inside a character gives U+FFFD, one byte wide. */
  datatype Tail = Tail(pending: nat, chars: string) {
    predicate IsEmpty() { pending == 0 && chars == "" }
    predicate IsAtSlash() { pending == 0 && chars != "" && chars[0] == '/' }
  }

  function SkipByte(t: Tail): Tail
    requires !t.IsEmpty()
  {
    if t.pending > 0 then t.(pending := t.pending - 1) else Tail(Utf8Len(t.chars[0]) - 1, t.chars[1..])
  }

  /** The term accepts a byte inside a character. A literal does not: it is compared byte by byte, and no character begins
      with such a byte. */
  predicate TakesByte(t: Term) {
    !t.Star? && !t.Literal? && AcceptsChar(t, '\U{FFFD}')
  }

  function Take(term: Term, t: Tail): Option<Tail>
    requires !term.Star?
  {
    if t.IsEmpty() then None
    else if t.pending > 0 then (if TakesByte(term) then Some(SkipByte(t)) else None)
    else if AcceptsChar(term, t.chars[0]) then Some(Tail(0, t.chars[1..]))
    else None
  }

  predicate HasNoStar(chunk: seq<Term>) {
    forall t | t in chunk :: !t.Star?
  }

  /** What is left after the chunk, if the text begins with it. */
  function TakeAll(chunk: seq<Term>, t: Tail): Option<Tail>
    requires HasNoStar(chunk)
  {
    if chunk == [] then Some(t)
    else match Take(chunk[0], t) case None => None case Some(u) => TakeAll(chunk[1..], u)
  }

  function AfterStars(ts: seq<Term>): (r: seq<Term>)
    ensures |r| <= |ts| && (r == [] || !r[0].Star?)
  {
    if ts != [] && ts[0].Star? then AfterStars(ts[1..]) else ts
  }

  /** The terms before the next star. */
  function Chunk(ts: seq<Term>): (r: seq<Term>)
    ensures |r| <= |ts| && HasNoStar(r)
  {
    if ts == [] || ts[0].Star? then [] else [ts[0]] + Chunk(ts[1..])
  }

  function AfterChunk(ts: seq<Term>): seq<Term> {
    ts[|Chunk(ts)|..]
  }

  /** The last chunk has to end the text. */
  predicate Fits(chunk: seq<Term>, t: Tail, last: bool)
    requires HasNoStar(chunk)
  {
    TakeAll(chunk, t).Some? && (last ==> TakeAll(chunk, t).value.IsEmpty())
  }

  /** What is left after the first place, skipping no slash, where the chunk fits. */
  function FirstFit(chunk: seq<Term>, t: Tail, last: bool): Option<Tail>
    requires HasNoStar(chunk)
    decreases |t.chars|, t.pending
  {
    if Fits(chunk, t, last) then TakeAll(chunk, t)
    else if t.IsEmpty() || t.IsAtSlash() then None
    else FirstFit(chunk, SkipByte(t), last)
  }

  predicate MatchFrom(ts: seq<Term>, t: Tail)
    decreases |ts|
  {
    if ts == [] then t.IsEmpty()
    else
      var body := AfterStars(ts);
      var chunk, rest := Chunk(body), AfterChunk(body);
      if chunk == [] then '/' !in t.chars
      else
        var left := if ts[0].Star? then FirstFit(chunk, t, rest == []) else TakeAll(chunk, t);
        left.Some? && MatchFrom(rest, left.value)
  }

  /** path.Match, for a well-formed pattern. */
  predicate MatchTerms(ts: seq<Term>, v: string) {
    MatchFrom(ts, Tail(0, v))
  }

  /** matchGlobPattern: a malformed pattern is compared literally. */
  predicate MatchGlob(pattern: string, value: string) {
    match Parse(pattern)
    case None => pattern == value
    case Some(ts) => MatchTerms(ts, value)
  }

  // Meaning, chunk by chunk

  /** A place where the body of a star can begin. */
  predicate CanSkip(v: string, n: nat) {
    n <= |v| && '/' !in v[..n]
  }

  lemma SkipStep(v: string, n: nat)
    requires 0 < n <= |v|
    ensures CanSkip(v, n) <==> v[0] != '/' && CanSkip(v[1..], n - 1)
  {
    assert v[..n] == [v[0]] + v[1..][..n - 1];
  }

  lemma {:induction false} StarsMean(ts: seq<Term>, v: string)
    requires ts != [] && ts[0].Star?
    ensures Means(ts, v) <==> exists n | 0 <= n <= |v| :: CanSkip(v, n) && Means(AfterStars(ts), v[n..])
    decreases |ts| + |v|
  {
    var body := AfterStars(ts);
    assert v[0..] == v && CanSkip(v, 0);
    if Means(ts[1..], v) {
      if ts[1..] != [] && ts[1].Star? {
        StarsMean(ts[1..], v);
        var n :| 0 <= n <= |v| && CanSkip(v, n) && Means(body, v[n..]);
      } else {
        assert body == AfterStars(ts[1..]) == ts[1..];
        assert CanSkip(v, 0) && Means(body, v[0..]);
      }
    }
    if v != "" {
      StarsMean(ts, v[1..]);
      if v[0] != '/' && Means(ts, v[1..]) {
        var n :| 0 <= n <= |v[1..]| && CanSkip(v[1..], n) && Means(body, v[1..][n..]);
        SkipStep(v, n + 1);
        assert v[1..][n..] == v[n + 1..];
      }
    }
    if n :| 0 <= n <= |v| && CanSkip(v, n) && Means(body, v[n..]) {
      if n > 0 {
        SkipStep(v, n);
        assert v[1..][n - 1..] == v[n..];
      } else if ts[1..] != [] && ts[1].Star? {
        StarsMean(ts[1..], v);
      }
    }
  }

  lemma {:induction false} ChunkMeans(ts: seq<Term>, v: string)
    ensures var left := TakeAll(Chunk(ts), Tail(0, v));
            && (left.Some? ==> left.value.pending == 0)
            && (Means(ts, v) <==> left.Some? && Means(AfterChunk(ts), left.value.chars))
    decreases |ts|
  {
    if ts == [] || ts[0].Star? {
      assert ts[0..] == ts;
    } else {
      assert Chunk(ts)[1..] == Chunk(ts[1..]) && AfterChunk(ts) == AfterChunk(ts[1..]);
      if v != "" {
        ChunkMeans(ts[1..], v[1..]);
      }
    }
  }

  /** A trailing star accepts what has no slash. */
  lemma TrailingStarsMean(ts: seq<Term>, v: string)
    requires ts != [] && AfterStars(ts) == []
    ensures Means(ts, v) <==> '/' !in v
  {
    StarsMean(ts, v);
    assert v[..|v|] == v && v[|v|..] == "";
    if n :| 0 <= n <= |v| && CanSkip(v, n) && Means([], v[n..]) {
      assert n == |v|;
    }
    if '/' !in v {
      assert CanSkip(v, |v|) && Means([], v[|v|..]);
    }
  }

  lemma {:induction false} NothingFollows(ts: seq<Term>)
    ensures AfterChunk(ts) == [] || AfterChunk(ts)[0].Star?
  {
    if ts != [] && !ts[0].Star? {
      NothingFollows(ts[1..]);
      assert AfterChunk(ts) == AfterChunk(ts[1..]);
    }
  }

  // What is matched is meant

  predicate IsAscii(v: string) {
    forall c | c in v :: !IsWide(c)
  }

  /** A chunk after a star that cannot gain from beginning inside a character: its first term does not accept a byte
      there, or it accepts every wide character as well and the next one does not accept such a byte. */
  ghost predicate StartsAligned(chunk: seq<Term>) {
    chunk != [] && TakesByte(chunk[0]) ==>
      && (forall c | IsWide(c) :: AcceptsChar(chunk[0], c))
      && (|chunk| > 1 ==> !TakesByte(chunk[1]))
  }

  ghost predicate IsAligned(ts: seq<Term>) {
    ts != [] ==> (ts[0].Star? ==> StartsAligned(Chunk(ts[1..]))) && IsAligned(ts[1..])
  }

  lemma {:induction false} AlignedParts(ts: seq<Term>)
    requires IsAligned(ts)
    ensures IsAligned(AfterStars(ts)) && IsAligned(AfterChunk(ts))
    ensures ts != [] && ts[0].Star? ==> StartsAligned(Chunk(AfterStars(ts)))
  {
    if ts != [] {
      AlignedParts(ts[1..]);
      if ts[0].Star? {
        assert ts[0..] == ts;
      } else {
        assert AfterChunk(ts) == AfterChunk(ts[1..]);
      }
    }
  }

  /** Where the chunk fits inside the character `c`, it fits at its beginning. */
  lemma FitsInsideFitsBefore(chunk: seq<Term>, c: char, t: Tail, last: bool)
    requires HasNoStar(chunk) && chunk != [] && StartsAligned(chunk) && IsWide(c) && t.pending > 0 && Fits(chunk, t, last)
    ensures Fits(chunk, Tail(0, [c] + t.chars), last)
  {
    var u, more := Tail(t.pending - 1, t.chars), chunk[1..];
    assert TakeAll(chunk, t) == TakeAll(more, u);
    assert ([c] + t.chars)[1..] == t.chars;
    assert Take(chunk[0], Tail(0, [c] + t.chars)) == Some(Tail(0, t.chars));
    if more != [] {
      assert more[0] == chunk[1];
      assert u.pending == 0;
    }
  }

  lemma {:induction false} NoFitInside(chunk: seq<Term>, c: char, t: Tail, last: bool)
    requires HasNoStar(chunk) && chunk != [] && StartsAligned(chunk) && IsWide(c)
    requires !Fits(chunk, Tail(0, [c] + t.chars), last)
    ensures FirstFit(chunk, t, last) == FirstFit(chunk, Tail(0, t.chars), last)
    decreases t.pending
  {
    if t.pending > 0 {
      if Fits(chunk, t, last) {
        FitsInsideFitsBefore(chunk, c, t, last);
      }
      NoFitInside(chunk, c, SkipByte(t), last);
    }
  }

  /** The first fit is at the beginning of a character. */
  lemma {:induction false} FirstFitIsAligned(chunk: seq<Term>, v: string, last: bool)
    requires HasNoStar(chunk) && chunk != [] && (IsAscii(v) || StartsAligned(chunk))
    requires FirstFit(chunk, Tail(0, v), last).Some?
    ensures exists n | 0 <= n <= |v| :: CanSkip(v, n) && Fits(chunk, Tail(0, v[n..]), last)
              && FirstFit(chunk, Tail(0, v), last) == TakeAll(chunk, Tail(0, v[n..]))
    decreases |v|
  {
    assert v[0..] == v && CanSkip(v, 0);
    if !Fits(chunk, Tail(0, v), last) {
      assert v[0] in v && forall c | c in v[1..] :: c in v;
      if IsWide(v[0]) {
        assert [v[0]] + v[1..] == v;
        NoFitInside(chunk, v[0], SkipByte(Tail(0, v)), last);
      }
      FirstFitIsAligned(chunk, v[1..], last);
      var n :| 0 <= n <= |v[1..]| && CanSkip(v[1..], n) && Fits(chunk, Tail(0, v[1..][n..]), last)
               && FirstFit(chunk, Tail(0, v[1..]), last) == TakeAll(chunk, Tail(0, v[1..][n..]));
      SkipStep(v, n + 1);
      assert v[1..][n..] == v[n + 1..];
    }
  }

  predicate IsSuffix(u: string, v: string) {
    |u| <= |v| && v[|v| - |u|..] == u
  }

  /** A chunk takes at most one character for each of its terms. */
  lemma {:induction false} TakesSuffix(chunk: seq<Term>, t: Tail)
    requires HasNoStar(chunk) && TakeAll(chunk, t).Some?
    ensures var u := TakeAll(chunk, t).value.chars;
            IsSuffix(u, t.chars) && |t.chars| - |u| <= |chunk|
  {
    hide AcceptsChar;
    if chunk != [] {
      TakesSuffix(chunk[1..], Take(chunk[0], t).value);
    }
  }

  /** No accepted text is outside the pattern, if the text is ASCII or no chunk gains from beginning inside a character. */
  lemma {:induction false} MatchIsMeant(ts: seq<Term>, v: string)
    requires (IsAscii(v) || IsAligned(ts)) && MatchTerms(ts, v)
    ensures Means(ts, v)
    decreases |ts|
  {
    if ts != [] {
      var body := AfterStars(ts);
      var chunk, rest := Chunk(body), AfterChunk(body);
      if IsAligned(ts) {
        AlignedParts(ts);
        AlignedParts(body);
      }
      if chunk == [] {
        TrailingStarsMean(ts, v);
      } else {
        var n: nat := 0;
        assert v[0..] == v;
        if ts[0].Star? {
          FirstFitIsAligned(chunk, v, rest == []);
          n :| 0 <= n <= |v| && CanSkip(v, n) && Fits(chunk, Tail(0, v[n..]), rest == [])
               && FirstFit(chunk, Tail(0, v), rest == []) == TakeAll(chunk, Tail(0, v[n..]));
        }
        ChunkMeans(body, v[n..]);
        var left := TakeAll(chunk, Tail(0, v[n..])).value;
        TakesSuffix(chunk, Tail(0, v[n..]));
        assert IsAscii(v) ==> IsAscii(left.chars);
        MatchIsMeant(rest, left.chars);
        if ts[0].Star? {
          StarsMean(ts, v);
        }
      }
    }
  }

  // What is meant is matched

  /** No class accepts a slash. */
  predicate ClassesKeepSlashes(ts: seq<Term>) {
    forall t | t in ts :: t.Class? ==> !AcceptsChar(t, '/')
  }

  /** The byte where `w` begins can be reached from `t` without skipping a slash. */
  predicate CanReach(t: Tail, w: string) {
    IsSuffix(w, t.chars) && '/' !in t.chars[..|t.chars| - |w|]
  }

  function Slashes(v: string): nat {
    multiset(v)['/']
  }

  lemma SlashesSplit(v: string, k: nat)
    requires k <= |v|
    ensures Slashes(v) == Slashes(v[..k]) + Slashes(v[k..])
  {
    assert v == v[..k] + v[k..];
  }

  function LiteralSlashes(chunk: seq<Term>): nat {
    if chunk == [] then 0 else (if chunk[0] == Literal('/') then 1 else 0) + LiteralSlashes(chunk[1..])
  }

  /** A chunk takes as many slashes as it has, wherever it fits. */
  lemma {:induction false} SlashesAreLiteral(chunk: seq<Term>, t: Tail)
    requires HasNoStar(chunk) && ClassesKeepSlashes(chunk) && TakeAll(chunk, t).Some?
    ensures Slashes(t.chars) == LiteralSlashes(chunk) + Slashes(TakeAll(chunk, t).value.chars)
  {
    if chunk != [] {
      SlashesAreLiteral(chunk[1..], Take(chunk[0], t).value);
      assert chunk[0] in chunk;
      if t.pending == 0 {
        SlashesSplit(t.chars, 1);
        assert t.chars[..1] == [t.chars[0]];
      }
    }
  }

  lemma {:induction false} TakesOneEach(chunk: seq<Term>, w: string)
    requires HasNoStar(chunk) && TakeAll(chunk, Tail(0, w)).Some?
    ensures |chunk| <= |w| && TakeAll(chunk, Tail(0, w)).value == Tail(0, w[|chunk|..])
  {
    if chunk != [] {
      TakesOneEach(chunk[1..], w[1..]);
    }
  }

  /** A chunk that fits at an earlier place leaves no less, and no slash more. */
  lemma EarlierLeavesMore(chunk: seq<Term>, t: Tail, w: string)
    requires HasNoStar(chunk) && ClassesKeepSlashes(chunk) && CanReach(t, w)
    requires TakeAll(chunk, t).Some? && TakeAll(chunk, Tail(0, w)).Some?
    ensures CanReach(TakeAll(chunk, t).value, TakeAll(chunk, Tail(0, w)).value.chars)
  {
    hide TakeAll, LiteralSlashes, Slashes, ClassesKeepSlashes;
    var u, x := TakeAll(chunk, t).value.chars, TakeAll(chunk, Tail(0, w)).value.chars;
    TakesOneEach(chunk, w);
    TakesSuffix(chunk, t);
    assert u[|u| - |x|..] == x;
    SlashesAreLiteral(chunk, t);
    SlashesAreLiteral(chunk, Tail(0, w));
    SlashesSplit(t.chars, |t.chars| - |w|);
    SlashesSplit(u, |u| - |x|);
    NoSlashes(t.chars[..|t.chars| - |w|]);
    NoSlashes(u[..|u| - |x|]);
  }

  lemma NoSlashes(v: string)
    ensures Slashes(v) == 0 <==> '/' !in v
  {
    assert '/' in multiset(v) <==> '/' in v;
  }

  lemma ReachStep(t: Tail, w: string)
    requires CanReach(t, w) && t != Tail(0, w)
    ensures !t.IsEmpty() && !t.IsAtSlash() && CanReach(SkipByte(t), w)
  {
    assert t.chars[0..] == t.chars;
    if t.pending == 0 {
      var n := |t.chars| - |w|;
      SkipStep(t.chars, n);
      assert t.chars[1..][n - 1..] == t.chars[n..];
    }
  }

  lemma {:induction false} FirstFitIsBefore(chunk: seq<Term>, t: Tail, w: string, last: bool)
    requires HasNoStar(chunk) && CanReach(t, w) && Fits(chunk, Tail(0, w), last)
    requires last || ClassesKeepSlashes(chunk)
    ensures var r := FirstFit(chunk, t, last);
            r.Some? && if last then r.value.IsEmpty() else CanReach(r.value, TakeAll(chunk, Tail(0, w)).value.chars)
    decreases |t.chars|, t.pending
  {
    hide TakeAll, CanReach, ClassesKeepSlashes;
    if Fits(chunk, t, last) {
      if !last {
        EarlierLeavesMore(chunk, t, w);
      }
    } else {
      ReachStep(t, w);
      FirstFitIsBefore(chunk, SkipByte(t), w, last);
    }
  }

  /** No class between two stars accepts a slash. */
  predicate StarsKeepSlashes(ts: seq<Term>) {
    ts != [] ==>
      && (ts[0].Star? && AfterChunk(ts[1..]) != [] ==> ClassesKeepSlashes(Chunk(ts[1..])))
      && StarsKeepSlashes(ts[1..])
  }

  lemma {:induction false} PartsKeepSlashes(ts: seq<Term>)
    requires StarsKeepSlashes(ts)
    ensures StarsKeepSlashes(AfterStars(ts)) && StarsKeepSlashes(AfterChunk(ts))
    ensures var body := AfterStars(ts);
            ts != [] && ts[0].Star? && AfterChunk(body) != [] ==> ClassesKeepSlashes(Chunk(body))
  {
    if ts != [] {
      PartsKeepSlashes(ts[1..]);
      if ts[0].Star? {
        assert ts[0..] == ts;
      } else {
        assert AfterChunk(ts) == AfterChunk(ts[1..]);
      }
    }
  }

  lemma MeantAfterStars(ts: seq<Term>, t: Tail, w: string) returns (left: Tail, x: string)
    requires StarsKeepSlashes(ts) && Means(ts, w) && CanReach(t, w) && ts != [] && ts[0].Star? && AfterStars(ts) != []
    ensures var chunk, rest := Chunk(AfterStars(ts)), AfterChunk(AfterStars(ts));
            && FirstFit(chunk, t, rest == []) == Some(left)
            && (if rest == [] then left.IsEmpty() else CanReach(left, x)) && Means(rest, x)
  {
    hide FirstFit, ClassesKeepSlashes, TakeAll;
    var body := AfterStars(ts);
    var chunk, rest := Chunk(body), AfterChunk(body);
    PartsKeepSlashes(ts);
    PartsKeepSlashes(body);
    StarsMean(ts, w);
    var m :| 0 <= m <= |w| && CanSkip(w, m) && Means(body, w[m..]);
    ChunkMeans(body, w[m..]);
    x := TakeAll(chunk, Tail(0, w[m..])).value.chars;
    ReachFurther(t, w, m);
    assert Fits(chunk, Tail(0, w[m..]), rest == []);
    FirstFitIsBefore(chunk, t, w[m..], rest == []);
    left := FirstFit(chunk, t, rest == []).value;
  }

  lemma ReachFurther(t: Tail, w: string, m: nat)
    requires CanReach(t, w) && CanSkip(w, m)
    ensures CanReach(t, w[m..])
  {
    var n := |t.chars| - |w|;
    assert t.chars[..n + m] == t.chars[..n] + w[..m] && t.chars[n + m..] == w[m..];
  }

  /** After a star, a part of the text that the pattern means is found from every earlier byte, unless a slash is between. */
  lemma {:induction false} MeantFromAfar(ts: seq<Term>, t: Tail, w: string)
    requires StarsKeepSlashes(ts) && Means(ts, w) && CanReach(t, w)
    requires t == Tail(0, w) || (ts != [] && ts[0].Star?)
    ensures MatchFrom(ts, t)
    decreases |ts|
  {
    hide TakeAll, FirstFit, StarsKeepSlashes;
    if ts != [] {
      var body := AfterStars(ts);
      var chunk, rest := Chunk(body), AfterChunk(body);
      NothingFollows(body);
      PartsKeepSlashes(ts);
      PartsKeepSlashes(body);
      if chunk == [] {
        TrailingStarsMean(ts, w);
        assert t.chars == t.chars[..|t.chars| - |w|] + w;
      } else if ts[0].Star? {
        var left, x := MeantAfterStars(ts, t, w);
        if rest != [] {
          MeantFromAfar(rest, left, x);
        }
      } else {
        ChunkMeans(ts, w);
        var left := TakeAll(chunk, t).value;
        assert left.chars[0..] == left.chars;
        MeantFromAfar(rest, left, left.chars);
      }
    }
  }

  /** No meant text is refused, if no class between two stars takes a slash. */
  lemma MeantIsMatched(ts: seq<Term>, v: string)
    requires StarsKeepSlashes(ts) && Means(ts, v)
    ensures MatchTerms(ts, v)
  {
    assert v[0..] == v;
    MeantFromAfar(ts, Tail(0, v), v);
  }

  /** Matching decides the meaning of every pattern in which no class between two stars takes a slash, on every ASCII text,
      and on every text at all if no chunk gains from beginning inside a character. */
  lemma MatchIsExact(ts: seq<Term>, v: string)
    requires StarsKeepSlashes(ts) && (IsAscii(v) || IsAligned(ts))
    ensures MatchTerms(ts, v) <==> Means(ts, v)
  {
    if MatchTerms(ts, v) {
      MatchIsMeant(ts, v);
    }
    if Means(ts, v) {
      MeantIsMatched(ts, v);
    }
  }

  /** A class between two stars that takes a slash commits too early: it takes the first character it accepts, and the star after it stops at
      the slash that the class could have taken. */
  lemma ClassesCommitTooEarly()
    ensures !MatchGlob("*[^x]*b", "aa/b")
    ensures Parse("*[^x]*b").Some? && Means(Parse("*[^x]*b").value, "aa/b")
  {
    var notX, b := Class(true, [Range('x', 'x')]), Literal('b');
    var ts, body, rest := [Star, notX, Star, b], [notX, Star, b], [Star, b];
    assert Parse("*[^x]*b") == Some(ts) by { ParsedClasses(); }
    assert ts[1..] == body && body[1..] == rest && rest[1..] == [b] && [b][1..] == [];
    assert "aa/b"[1..] == "a/b" && "a/b"[1..] == "/b" && "/b"[1..] == "b" && "b"[1..] == "";
    assert Means([b], "b") && Means(rest, "b") && Means(body, "/b") && Means(ts, "/b") && Means(ts, "a/b");
    assert Chunk(rest) == [] && Chunk(body) == [notX] && AfterChunk(body) == rest && AfterStars(ts) == body;
    assert Chunk([b]) == [b] && AfterChunk([b]) == [] && AfterStars(rest) == [b];
    assert TakeAll([notX], Tail(0, "aa/b")) == Some(Tail(0, "a/b"));
    assert FirstFit([b], Tail(0, "/b"), true) == None && FirstFit([b], Tail(0, "a/b"), true) == None;
  }

  lemma ParsedClasses()
    ensures Parse("*[^x]*b") == Some([Star, Class(true, [Range('x', 'x')]), Star, Literal('b')])
  {
    assert "b"[1..] == "" && "*b"[1..] == "b" && "x]*b"[1..] == "]*b" && "]*b"[1..] == "*b" && "[^x]*b"[2..] == "x]*b";
    assert "*[^x]*b"[1..] == "[^x]*b";
    assert Parse("b") == Prepend(Literal('b'), Some([])) && Parse("*b") == Prepend(Star, Parse("b"));
    assert [Literal('b')] + [] == [Literal('b')] && [Star] + [Literal('b')] == [Star, Literal('b')];
    assert ClassBound("x]*b") == Some(('x', "]*b")) && [] + [Range('x', 'x')] == [Range('x', 'x')];
    assert ClassRanges("]*b", [Range('x', 'x')]) == Some(([Range('x', 'x')], "*b"));
    assert ClassRanges("x]*b", []) == Some(([Range('x', 'x')], "*b"));
    var notX := Class(true, [Range('x', 'x')]);
    assert "[^x]*b"[1] == '^' && Parse("[^x]*b") == Prepend(notX, Parse("*b"));
    assert [notX] + [Star, Literal('b')] == [notX, Star, Literal('b')];
    assert [Star] + [notX, Star, Literal('b')] == [Star, notX, Star, Literal('b')];
    assert "*[^x]*b"[0] == '*' && Parse("*[^x]*b") == Prepend(Star, Parse("[^x]*b"));
  }

  /** A star can end inside a character, and what is left of it counts as two. */
  lemma OneCharacterIsTakenForTwo()
    ensures MatchGlob("*??", "\U{65E5}") && Parse("*??").Some? && !Means(Parse("*??").value, "\U{65E5}")
  {
    var ts, marks, v := [Star, AnyOne, AnyOne], [AnyOne, AnyOne], "\U{65E5}";
    assert "?"[1..] == "" && "??"[1..] == "?" && "*??"[1..] == "??" && v[1..] == "";
    assert Parse("?") == Prepend(AnyOne, Parse("")) && Parse("??") == Prepend(AnyOne, Parse("?")) && Parse("*??") == Prepend(Star, Parse("??"));
    assert [AnyOne] + [] == [AnyOne] && [AnyOne] + [AnyOne] == marks && [Star] + marks == ts;
    assert ts[1..] == marks && marks[1..] == [AnyOne] && [AnyOne][1..] == [];
    assert !Means(marks, v) && !Means(marks, "") && !Means(ts, "");
    assert Chunk([AnyOne]) == [AnyOne] && Chunk(marks) == marks && AfterChunk(marks) == [] && AfterStars(ts) == marks;
    assert TakeAll(marks, Tail(0, v)) == None;
    assert TakeAll(marks, Tail(2, "")) == TakeAll([AnyOne], Tail(1, "")) == TakeAll([], Tail(0, "")) == Some(Tail(0, ""));
    assert FirstFit(marks, Tail(0, v), true) == FirstFit(marks, Tail(2, ""), true);
  }

  /** Nor does excluding a character keep it out. */
  lemma ExcludedCharacterIsAccepted()
    ensures MatchGlob("*[^\U{65E5}]", "\U{65E5}")
    ensures Parse("*[^\U{65E5}]").Some? && !Means(Parse("*[^\U{65E5}]").value, "\U{65E5}")
  {
    var c, v := '\U{65E5}', "\U{65E5}";
    var r := Range(c, c);
    var other := Class(true, [r]);
    var p, ts := "*[^\U{65E5}]", [Star, other];
    assert p[1..] == "[^\U{65E5}]" && p[1..][2..] == [c] + "]" && ([c] + "]")[1..] == "]" && "]"[1..] == "" && v[1..] == "";
    assert [] + [r] == [r] && [other] + [] == [other] && [Star] + [other] == ts;
    assert ClassRanges("]", [r]) == Some(([r], "")) && ClassRanges([c] + "]", []) == Some(([r], ""));
    assert p[1..][1] == '^' && Parse(p[1..]) == Prepend(other, Parse("")) && Parse(p) == Prepend(Star, Parse(p[1..]));
    assert ts[1..] == [other] && [other][1..] == [];
    assert r in [r] && !AcceptsChar(other, c) && AcceptsChar(other, '\U{FFFD}');
    assert !Means([other], v) && !Means([other], "") && !Means(ts, "");
    assert Chunk([other]) == [other] && AfterChunk([other]) == [] && AfterStars(ts) == [other];
    assert TakeAll([other], Tail(0, v)) == None && TakeAll([other], Tail(2, "")) == Some(Tail(1, ""));
    assert TakeAll([other], Tail(1, "")) == Some(Tail(0, ""));
    assert FirstFit([other], Tail(0, v), true) == FirstFit([other], Tail(2, ""), true) == FirstFit([other], Tail(1, ""), true);
  }

  // Consequences

  predicate HasNoClass(ts: seq<Term>) {
    forall t | t in ts :: !t.Class?
  }

  lemma {:induction false} ClasslessKeepsSlashes(ts: seq<Term>)
    requires HasNoClass(ts)
    ensures StarsKeepSlashes(ts) && HasNoClass(Chunk(ts))
  {
    if ts != [] {
      assert ts[0] in ts;
      ClasslessKeepsSlashes(ts[1..]);
    }
  }

  lemma {:induction false} SelfMeans(p: string)
    requires '[' !in p && '\\' !in p
    ensures Parse(p).Some? && HasNoClass(Parse(p).value) && Means(Parse(p).value, p)
    decreases |p|
  {
    if p != "" {
      assert p[0] in p && forall c | c in p[1..] :: c in p;
      SelfMeans(p[1..]);
      var ts := Parse(p).value;
      assert ts[1..] == Parse(p[1..]).value && forall t | t in ts :: t == ts[0] || t in ts[1..];
      if p[0] == '*' {
        assert Means(ts, p[1..]);
      }
    }
  }

  /** A pattern without brackets and backslashes accepts its own text. */
  lemma SelfMatch(p: string)
    requires '[' !in p && '\\' !in p
    ensures MatchGlob(p, p)
    ensures Parse(p).Some?
  {
    SelfMeans(p);
    ClasslessKeepsSlashes(Parse(p).value);
    MeantIsMatched(Parse(p).value, p);
  }

  /** `*` accepts exactly the words without a slash. */
  lemma StarAccepts(v: string)
    ensures MatchTerms([Star], v) <==> '/' !in v
    ensures MatchGlob("*", v) <==> '/' !in v
  {
    assert [Star][1..] == [] && "*"[1..] == "";
    assert Parse("*") == Prepend(Star, Parse(""));
    assert AfterStars([Star]) == [];
  }

  /** Every character behind a backslash. */
  function Escaped(s: string): string {
    if s == "" then "" else "\\" + [s[0]] + Escaped(s[1..])
  }

  function Literals(s: string): (ts: seq<Term>)
    ensures |ts| == |s| && HasNoStar(ts)
  {
    seq(|s|, i requires 0 <= i < |s| => Literal(s[i]))
  }

  lemma {:induction false} EscapedIsLiteral(s: string)
    ensures Parse(Escaped(s)) == Some(Literals(s))
    decreases |s|
  {
    if s != "" {
      EscapedIsLiteral(s[1..]);
      var p := Escaped(s);
      assert p[0] == '\\' && p[1] == s[0] && p[2..] == Escaped(s[1..]);
      assert [Literal(s[0])] + Literals(s[1..]) == Literals(s);
    }
  }

  lemma {:induction false} LiteralsMean(s: string, v: string)
    ensures Means(Literals(s), v) <==> v == s
    decreases |s|
  {
    if s != "" {
      assert Literals(s)[1..] == Literals(s[1..]);
      if v != "" {
        LiteralsMean(s[1..], v[1..]);
        assert v == [v[0]] + v[1..] && s == [s[0]] + s[1..];
      }
    }
  }

  lemma {:induction false} LiteralsAreExact(ts: seq<Term>)
    requires forall t | t in ts :: t.Literal?
    ensures StarsKeepSlashes(ts) && IsAligned(ts)
  {
    if ts != [] {
      assert ts[0] in ts;
      LiteralsAreExact(ts[1..]);
    }
  }

  /** An escaped text is a pattern for itself and for nothing else. */
  lemma EscapedMatchesExactly(s: string, v: string)
    ensures MatchGlob(Escaped(s), v) <==> v == s
  {
    EscapedIsLiteral(s);
    LiteralsAreExact(Literals(s));
    MatchIsExact(Literals(s), v);
    LiteralsMean(s, v);
  }

  predicate IsPlainBound(c: char) {
    c != '-' && c != ']' && c != '^' && c != '\\'
  }

  /** A class with one range accepts the characters of the range, and with a caret all others. */
  lemma RangeMatchesExactly(lo: char, hi: char, c: char)
    requires IsPlainBound(lo) && IsPlainBound(hi)
    ensures MatchGlob("[" + [lo] + "-" + [hi] + "]", [c]) <==> lo <= c <= hi
    ensures MatchGlob("[^" + [lo] + "-" + [hi] + "]", [c]) <==> !(lo <= c <= hi)
  {
    var tail := [lo] + "-" + [hi] + "]";
    RangeIsParsed(lo, hi, tail);
    assert "[" + [lo] + "-" + [hi] + "]" == "[" + tail && "[^" + [lo] + "-" + [hi] + "]" == "[^" + tail;
    OneClassMatches(Class(false, [Range(lo, hi)]), c);
    OneClassMatches(Class(true, [Range(lo, hi)]), c);
    assert Range(lo, hi) in [Range(lo, hi)];
  }

  lemma RangeIsParsed(lo: char, hi: char, tail: string)
    requires IsPlainBound(lo) && IsPlainBound(hi) && tail == [lo] + "-" + [hi] + "]"
    ensures Parse("[" + tail) == Some([Class(false, [Range(lo, hi)])])
    ensures Parse("[^" + tail) == Some([Class(true, [Range(lo, hi)])])
  {
    var r := Range(lo, hi);
    assert tail[1..] == "-" + [hi] + "]" && ("-" + [hi] + "]")[..1] == "-" && ("-" + [hi] + "]")[1..] == [hi] + "]";
    assert ([hi] + "]")[1..] == "]" && "]"[1..] == "" && [] + [r] == [r];
    assert ClassRanges("]", [r]) == Some(([r], ""));
    assert ClassRanges(tail, []) == Some(([r], ""));
    assert ("[" + tail)[1..] == tail && ("[" + tail)[1] == lo && ("[^" + tail)[2..] == tail && ("[^" + tail)[1] == '^';
    assert [Class(false, [r])] + [] == [Class(false, [r])] && [Class(true, [r])] + [] == [Class(true, [r])];
  }

  lemma OneClassMatches(t: Term, c: char)
    requires t.Class?
    ensures MatchTerms([t], [c]) <==> AcceptsChar(t, c)
  {
    assert [t][1..] == [] && [c][1..] == "" && Chunk([]) == [] && Chunk([t]) == [t] + Chunk([t][1..]);
    assert Chunk([t]) == [t] && AfterChunk([t]) == [] && AfterStars([t]) == [t];
    assert TakeAll([t], Tail(0, [c])) == if AcceptsChar(t, c) then Some(Tail(0, "")) else None;
    assert MatchFrom([], Tail(0, ""));
  }
}
