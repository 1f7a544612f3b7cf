/** The string operations of Go's standard library the policy engine is built on,
    over sequences of Unicode scalar values. */
module Text {

  datatype Option<+T> = None | Some(value: T)

  /** White space as unicode.IsSpace defines it. */
  predicate IsSpace(c: char) {
    var x := c as int;
    || 9 <= x <= 13 || x == 32 || x == 0x85 || x == 0xA0 || x == 0x1680
    || 0x2000 <= x <= 0x200A || x == 0x2028 || x == 0x2029 || x == 0x202F || x == 0x205F || x == 0x3000
  }

  predicate HasSpace(s: string) {
    exists i | 0 <= i < |s| :: IsSpace(s[i])
  }

  /** The character takes more than one byte in UTF-8. */
  predicate IsWide(c: char) {
    c as int >= 0x80
  }

  /** Bytes of a scalar value in UTF-8: Go measures strings in bytes. */
  function Utf8Len(c: char): (n: nat)
    ensures n >= 1 && (n == 1 <==> !IsWide(c))
  {
    var x := c as int;
    if x < 0x80 then 1 else if x < 0x800 then 2 else if x < 0x10000 then 3 else 4
  }

  function TrimLeft(s: string): string {
    if s != "" && IsSpace(s[0]) then TrimLeft(s[1..]) else s
  }

  function TrimRight(s: string): string {
    if s != "" && IsSpace(s[|s| - 1]) then TrimRight(s[..|s| - 1]) else s
  }

  /** strings.TrimSpace */
  function TrimSpace(s: string): string {
    TrimRight(TrimLeft(s))
  }

  /** strings.Fields */
  function Fields(s: string): seq<string> {
    FieldsFrom("", s)
  }

  function Flush(word: string): seq<string> {
    if word == "" then [] else [word]
  }

  /** The fields of `s` when `word` has been read of a field already. */
  function FieldsFrom(word: string, s: string): seq<string>
    decreases |s|
  {
    if s == "" then Flush(word)
    else if IsSpace(s[0]) then Flush(word) + FieldsFrom("", s[1..])
    else FieldsFrom(word + [s[0]], s[1..])
  }

  /** strings.Join */
  function Join(parts: seq<string>, sep: string): string {
    if |parts| == 0 then ""
    else if |parts| == 1 then parts[0]
    else parts[0] + sep + Join(parts[1..], sep)
  }

  // Fields splits at every space

  lemma {:induction false} FieldsFromSplit(word: string, a: string, c: char, b: string)
    requires IsSpace(c)
    ensures FieldsFrom(word, a + [c] + b) == FieldsFrom(word, a) + Fields(b)
    decreases |a|
  {
    var s := a + [c] + b;
    if a == "" {
      assert s[0] == c && s[1..] == b;
    } else {
      assert s[0] == a[0] && s[1..] == a[1..] + [c] + b;
      FieldsFromSplit(if IsSpace(a[0]) then "" else word + [a[0]], a[1..], c, b);
    }
  }

  lemma FieldsSplit(a: string, c: char, b: string)
    requires IsSpace(c)
    ensures Fields(a + [c] + b) == Fields(a) + Fields(b)
  {
    FieldsFromSplit("", a, c, b);
  }

  lemma {:induction false} FieldsFromWord(word: string, s: string)
    requires !HasSpace(s)
    ensures FieldsFrom(word, s) == Flush(word + s)
    decreases |s|
  {
    if s == "" {
      assert word + s == word;
    } else {
      forall i | 0 <= i < |s[1..]| ensures !IsSpace(s[1..][i]) { assert s[1..][i] == s[i + 1]; }
      FieldsFromWord(word + [s[0]], s[1..]);
      assert word + [s[0]] + s[1..] == word + s;
    }
  }

  /** Every field is a non-empty word without white space. */
  lemma {:induction false} FieldsAreWords(word: string, s: string)
    requires !HasSpace(word)
    ensures forall f | f in FieldsFrom(word, s) :: f != "" && !HasSpace(f)
    decreases |s|
  {
    if s != "" {
      FieldsAreWords(if IsSpace(s[0]) then "" else word + [s[0]], s[1..]);
    }
  }

  lemma {:induction false} FieldsOfWord(w: string)
    requires w != "" && !HasSpace(w)
    ensures Fields(w) == [w]
  {
    FieldsFromWord("", w);
    assert "" + w == w;
  }

  // Trimming

  lemma {:induction false} FieldsTrimLeft(s: string)
    ensures Fields(TrimLeft(s)) == Fields(s)
  {
    if s != "" && IsSpace(s[0]) {
      FieldsTrimLeft(s[1..]);
    }
  }

  lemma {:induction false} FieldsTrimRight(s: string)
    ensures Fields(TrimRight(s)) == Fields(s)
  {
    if s != "" && IsSpace(s[|s| - 1]) {
      var n := |s| - 1;
      FieldsTrimRight(s[..n]);
      assert s == s[..n] + [s[n]] + "";
      FieldsSplit(s[..n], s[n], "");
    }
  }

  lemma FieldsTrim(s: string)
    ensures Fields(TrimSpace(s)) == Fields(s)
  {
    FieldsTrimLeft(s);
    FieldsTrimRight(TrimLeft(s));
  }

  lemma {:induction false} TrimRightEdge(s: string)
    ensures TrimRight(s) <= s
    ensures TrimRight(s) != "" ==> !IsSpace(TrimRight(s)[|TrimRight(s)| - 1])
  {
    if s != "" && IsSpace(s[|s| - 1]) {
      TrimRightEdge(s[..|s| - 1]);
    }
  }

  lemma {:induction false} TrimLeftEdge(s: string)
    ensures TrimLeft(s) != "" ==> !IsSpace(TrimLeft(s)[0])
    ensures |TrimLeft(s)| <= |s|
  {
    if s != "" && IsSpace(s[0]) {
      TrimLeftEdge(s[1..]);
    }
  }

  lemma {:induction false} StartedFieldStays(word: string, s: string)
    requires word != ""
    ensures |FieldsFrom(word, s)| > 0
    decreases |s|
  {
    if s != "" && !IsSpace(s[0]) {
      StartedFieldStays(word + [s[0]], s[1..]);
    }
  }

  /** A string is blank exactly when it has no fields. */
  lemma BlankHasNoFields(s: string)
    ensures TrimSpace(s) == "" <==> Fields(s) == []
  {
    FieldsTrim(s);
    var t := TrimLeft(s);
    TrimLeftEdge(s);
    TrimRightEdge(t);
    if TrimSpace(s) != "" {
      assert TrimSpace(s)[0] == t[0];
      assert "" + [t[0]] == [t[0]];
      StartedFieldStays([t[0]], TrimSpace(s)[1..]);
    }
  }

  /** Trimming is idempotent. */
  lemma TrimIdempotent(s: string)
    ensures TrimSpace(TrimSpace(s)) == TrimSpace(s)
  {
    var t := TrimLeft(s);
    TrimLeftEdge(s);
    TrimRightEdge(t);
    if TrimSpace(s) != "" {
      assert TrimSpace(s)[0] == t[0];
    }
  }

  /** A non-empty set has an element to go on with. */
  lemma HasMember(s: set<int>)
    requires s != {}
    ensures exists x :: x in s
  {
    if forall x :: x !in s {
      assert false;
    }
  }
}
