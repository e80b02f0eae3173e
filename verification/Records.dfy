/** Pick records as text: attributes separated by newlines, values inside an attribute separated by
    the value mark, and the record-level writes built on them. */
module Records {

  /** The Pick value mark, character code 0xFD. */
  const VALUE_MARK: char := '\U{FD}'

  const NEWLINE: char := '\n'

  // ---------------------------------------------------------------------------------------------
  // Splitting and joining at a mark
  // ---------------------------------------------------------------------------------------------

  /** Puts `head` in front of the first piece. */
  function Prepend(head: string, pieces: seq<string>): seq<string>
    requires |pieces| >= 1
  {
    [head + pieces[0]] + pieces[1..]
  }

  lemma PrependNothing(pieces: seq<string>)
    requires |pieces| >= 1
    ensures Prepend("", pieces) == pieces
  {
    assert "" + pieces[0] == pieces[0];
  }

  lemma PrependTwice(a: string, b: string, pieces: seq<string>)
    requires |pieces| >= 1
    ensures Prepend(a, Prepend(b, pieces)) == Prepend(a + b, pieces)
  {
    assert a + (b + pieces[0]) == (a + b) + pieces[0];
  }

  lemma PrependFirst(head: string, a: seq<string>, b: seq<string>)
    requires |a| >= 1
    ensures Prepend(head, a + b) == Prepend(head, a) + b
  {
  }

  /** The pieces of `s` between occurrences of `mark`; there is always at least one. */
  function Split(s: string, mark: char): (pieces: seq<string>)
    ensures |pieces| >= 1
  {
    if s == "" then [""]
    else if s[0] == mark then [""] + Split(s[1..], mark)
    else Prepend([s[0]], Split(s[1..], mark))
  }

  function Join(pieces: seq<string>, mark: char): string {
    if |pieces| == 0 then ""
    else if |pieces| == 1 then pieces[0]
    else pieces[0] + [mark] + Join(pieces[1..], mark)
  }

  /** No piece contains the mark. */
  predicate Free(pieces: seq<string>, mark: char) {
    forall i | 0 <= i < |pieces| :: mark !in pieces[i]
  }

  lemma {:induction false} JoinPrepend(head: string, pieces: seq<string>, mark: char)
    requires |pieces| >= 1
    ensures Join(Prepend(head, pieces), mark) == head + Join(pieces, mark)
  {
    var r := Prepend(head, pieces);
    if |pieces| > 1 {
      assert r[1..] == pieces[1..];
    }
  }

  /** Joining what was split at the same mark gives the text back, whatever it holds. */
  lemma {:induction false} JoinSplit(s: string, mark: char)
    ensures Join(Split(s, mark), mark) == s
  {
    if s != "" {
      JoinSplit(s[1..], mark);
      var rest := Split(s[1..], mark);
      if s[0] == mark {
        assert ([""] + rest)[1..] == rest;
      } else {
        JoinPrepend([s[0]], rest, mark);
      }
    }
  }

  lemma {:induction false} SplitIsFree(s: string, mark: char)
    ensures Free(Split(s, mark), mark)
  {
    if s != "" {
      SplitIsFree(s[1..], mark);
    }
  }

  /** A mark-free text has one piece, and a mark after it starts the next one. */
  lemma {:induction false} SplitHead(a: string, rest: string, mark: char)
    requires mark !in a
    ensures Split(a, mark) == [a]
    ensures Split(a + [mark] + rest, mark) == [a] + Split(rest, mark)
  {
    var whole := a + [mark] + rest;
    if a == "" {
      assert whole[1..] == rest;
    } else {
      assert whole[1..] == a[1..] + [mark] + rest;
      SplitHead(a[1..], rest, mark);
      assert [a[0]] + a[1..] == a;
    }
  }

  /** Splitting what was joined from mark-free pieces gives the pieces back. */
  lemma {:induction false} SplitJoin(pieces: seq<string>, mark: char)
    requires |pieces| >= 1 && Free(pieces, mark)
    ensures Split(Join(pieces, mark), mark) == pieces
  {
    if |pieces| == 1 {
      SplitHead(pieces[0], "", mark);
    } else {
      SplitJoin(pieces[1..], mark);
      SplitHead(pieces[0], Join(pieces[1..], mark), mark);
    }
  }

  lemma {:induction false} JoinSnoc(pieces: seq<string>, last: string, mark: char)
    requires |pieces| >= 1
    ensures Join(pieces + [last], mark) == Join(pieces, mark) + [mark] + last
  {
    if |pieces| > 1 {
      JoinSnoc(pieces[1..], last, mark);
      assert (pieces + [last])[1..] == pieces[1..] + [last];
    }
  }

  /** Joining any pieces cuts back to at least as many pieces, and to more when a piece holds the mark. */
  lemma {:induction false} SplitJoinCount(pieces: seq<string>, mark: char)
    requires |pieces| >= 1
    ensures |Split(Join(pieces, mark), mark)| >= |pieces|
    ensures !Free(pieces, mark) ==> |Split(Join(pieces, mark), mark)| > |pieces|
  {
    if |pieces| == 1 {
      SplitCount(pieces[0], mark);
    } else {
      SplitJoinCount(pieces[1..], mark);
      SplitCount(pieces[0], mark);
      SplitAppend(pieces[0], Join(pieces[1..], mark), mark);
    }
  }

  lemma {:induction false} SplitCount(s: string, mark: char)
    ensures mark in s ==> |Split(s, mark)| > 1
  {
    if s != "" {
      SplitCount(s[1..], mark);
    }
  }

  /** A mark between two texts puts their pieces one after the other. */
  lemma {:induction false} SplitAppend(a: string, b: string, mark: char)
    ensures Split(a + [mark] + b, mark) == Split(a, mark) + Split(b, mark)
  {
    var whole := a + [mark] + b;
    if a == "" {
      assert whole[1..] == b;
    } else {
      assert whole[1..] == a[1..] + [mark] + b;
      SplitAppend(a[1..], b, mark);
      PrependFirst([a[0]], Split(a[1..], mark), Split(b, mark));
    }
  }

  /** The pieces after piece `i` became `text`, which may hold marks of its own. */
  function Spliced(pieces: seq<string>, i: nat, text: string, mark: char): seq<string>
    requires i < |pieces|
  {
    pieces[..i] + Split(text, mark) + pieces[i + 1..]
  }

  lemma {:induction false} SplitSplice(pieces: seq<string>, i: nat, text: string, mark: char)
    requires i < |pieces| && Free(pieces, mark)
    ensures Split(Join(pieces[i := text], mark), mark) == Spliced(pieces, i, text, mark)
    decreases i
  {
    hide Split;
    var changed, tail := pieces[i := text], pieces[1..];
    if i > 0 {
      SplitSplice(tail, i - 1, text, mark);
      assert changed[1..] == tail[i - 1 := text];
      SplitHead(pieces[0], Join(changed[1..], mark), mark);
      assert [pieces[0]] + Spliced(tail, i - 1, text, mark) == Spliced(pieces, i, text, mark) by {
        assert [pieces[0]] + tail[..i - 1] == pieces[..i];
        assert tail[i..] == pieces[i + 1..];
      }
    } else if |pieces| > 1 {
      assert changed[1..] == tail;
      SplitJoin(tail, mark);
      SplitAppend(text, Join(tail, mark), mark);
      assert pieces[..0] + Split(text, mark) + tail == Split(text, mark) + tail;
    } else {
      assert pieces[..0] + Split(text, mark) + pieces[1..] == Split(text, mark);
    }
  }

  /** Piece `n` counting from one; a missing piece reads as empty. */
  function Piece(pieces: seq<string>, n: int): string {
    if 1 <= n <= |pieces| then pieces[n - 1] else ""
  }

  /** The value splitter: one pass with the current value as an accumulator. */
  method SplitValues(raw: string) returns (out: seq<string>)
    ensures out == Split(raw, VALUE_MARK)
  {
    out := [];
    var current := "";
    assert raw[0..] == raw;
    PrependNothing(Split(raw, VALUE_MARK));
    for i := 0 to |raw|
      invariant Split(raw, VALUE_MARK) == out + Prepend(current, Split(raw[i..], VALUE_MARK))
    {
      var rest := Split(raw[i + 1..], VALUE_MARK);
      assert raw[i..][1..] == raw[i + 1..];
      if raw[i] == VALUE_MARK {
        assert Split(raw[i..], VALUE_MARK) == [""] + rest;
        PrependNothing(rest);
        assert current + "" == current;
        assert ([""] + rest)[1..] == rest;
        out := out + [current];
        current := "";
      } else {
        PrependTwice(current, [raw[i]], rest);
        current := current + [raw[i]];
      }
    }
    assert raw[|raw|..] == "";
    assert current + "" == current;
    assert Prepend(current, [""]) == [current];
    out := out + [current];
  }

  method JoinValues(values: seq<string>) returns (out: string)
    ensures out == Join(values, VALUE_MARK)
  {
    out := "";
    for i := 0 to |values|
      invariant out == Join(values[..i], VALUE_MARK)
    {
      if i > 0 {
        out := out + [VALUE_MARK];
        JoinSnoc(values[..i], values[i], VALUE_MARK);
      }
      out := out + values[i];
      assert values[..i + 1] == values[..i] + [values[i]];
    }
    assert values[..|values|] == values;
  }

  /** Value `n` of an attribute, counting from one; a missing value reads as empty. */
  function ValueAt(raw: string, n: int): string {
    Piece(Split(raw, VALUE_MARK), n)
  }

  // ---------------------------------------------------------------------------------------------
  // Attributes
  // ---------------------------------------------------------------------------------------------

  type Attributes = map<int, string>

  /** The attribute texts of a stored record; the empty record has none. */
  function Lines(raw: string): seq<string> {
    if raw == "" then [] else Split(raw, NEWLINE)
  }

  /** Consecutive attributes numbered from `first`. */
  function Numbered(lines: seq<string>, first: int): Attributes {
    if lines == [] then map[] else Numbered(lines[..|lines| - 1], first)[first + |lines| - 1 := lines[|lines| - 1]]
  }

  lemma NumberedSnoc(lines: seq<string>, first: int, last: string)
    ensures Numbered(lines + [last], first) == Numbered(lines, first)[first + |lines| := last]
  {
    assert (lines + [last])[..|lines|] == lines;
  }

  lemma {:induction false} NumberedAt(lines: seq<string>, first: int)
    ensures forall k :: k in Numbered(lines, first) <==> first <= k < first + |lines|
    ensures forall k :: first <= k < first + |lines| ==> Numbered(lines, first)[k] == lines[k - first]
  {
    if lines != [] {
      NumberedAt(lines[..|lines| - 1], first);
    }
  }

  function FromRaw(raw: string): Attributes {
    Numbered(Lines(raw), 1)
  }

  /** An attribute that is not there reads as empty. */
  function Attribute(attrs: Attributes, n: int): string {
    if n > 0 && n in attrs then attrs[n] else ""
  }

  function SetAttribute(attrs: Attributes, n: int, text: string): Attributes {
    if n <= 0 then attrs else attrs[n := text]
  }

  ghost predicate IsLeast(k: int, keys: set<int>) {
    k in keys && forall j | j in keys :: k <= j
  }

  lemma {:induction false} LeastExists(keys: set<int>)
    requires keys != {}
    ensures exists k :: IsLeast(k, keys)
  {
    if forall x: int :: x !in keys {
      assert false;
    }
    var x :| x in keys;
    if keys == {x} {
      assert IsLeast(x, keys);
    } else {
      assert keys - {x} != {};
      LeastExists(keys - {x});
      var y :| IsLeast(y, keys - {x});
      var m := if x < y then x else y;
      forall j | j in keys
        ensures m <= j
      {
        assert j == x || j in keys - {x};
      }
      assert IsLeast(m, keys);
    }
  }

  ghost function Least(keys: set<int>): (k: int)
    requires keys != {}
    ensures IsLeast(k, keys)
  {
    LeastExists(keys);
    var k :| IsLeast(k, keys);
    k
  }

  /** The attribute texts in ascending order of attribute number; gaps leave no trace. */
  ghost function InOrder(attrs: Attributes): seq<string>
    decreases |attrs|
  {
    if attrs == map[] then []
    else
      assert attrs.Keys != {};
      var k := Least(attrs.Keys);
      assert |attrs - {k}| < |attrs| by { Shrinks(attrs, k); }
      [attrs[k]] + InOrder(attrs - {k})
  }

  lemma Shrinks(attrs: Attributes, k: int)
    requires k in attrs
    ensures |attrs - {k}| == |attrs| - 1
  {
    assert (attrs - {k}).Keys == attrs.Keys - {k};
    assert |attrs.Keys - {k}| == |attrs.Keys| - 1;
  }

  ghost function ToRaw(attrs: Attributes): string {
    Join(InOrder(attrs), NEWLINE)
  }

  lemma {:induction false} InOrderNumbered(lines: seq<string>, first: int)
    ensures InOrder(Numbered(lines, first)) == lines
    decreases |lines|
  {
    var m := Numbered(lines, first);
    if |lines| > 0 {
      NumberedAt(lines, first);
      NumberedAt(lines[1..], first + 1);
      assert first in m;
      assert Least(m.Keys) == first;
      assert forall k | k in m && k != first :: m[k] == lines[1..][k - (first + 1)];
      assert (m - {first}).Keys == Numbered(lines[1..], first + 1).Keys;
      assert m - {first} == Numbered(lines[1..], first + 1);
      InOrderNumbered(lines[1..], first + 1);
    }
  }

  /** A number above all others is written last, however large the gap before it. */
  lemma {:induction false} InOrderAbove(attrs: Attributes, n: int, text: string)
    requires forall k | k in attrs :: k < n
    ensures InOrder(attrs[n := text]) == InOrder(attrs) + [text]
    decreases |attrs|
  {
    var m := attrs[n := text];
    assert n in m;
    if attrs == map[] {
      assert m - {Least(m.Keys)} == map[];
    } else {
      var k := Least(attrs.Keys);
      assert k in m && IsLeast(k, m.Keys);
      assert Least(m.Keys) == k;
      Shrinks(attrs, k);
      InOrderAbove(attrs - {k}, n, text);
      assert m - {k} == (attrs - {k})[n := text];
    }
  }

  /** Storing and reloading a record changes no byte. */
  lemma ToRawFromRaw(raw: string)
    ensures ToRaw(FromRaw(raw)) == raw
  {
    InOrderNumbered(Lines(raw), 1);
    if raw != "" {
      JoinSplit(raw, NEWLINE);
    }
  }

  // The attribute container of the record layer, with its updates in place.
  class StructuredRecord {
    var attributes: Attributes

    constructor (attrs: Attributes)
      ensures attributes == attrs
    {
      attributes := attrs;
    }

    method Set(n: int, text: string)
      modifies this
      ensures attributes == SetAttribute(old(attributes), n, text)
    {
      if n <= 0 {
        return;
      }
      attributes := attributes[n := text];
    }

    method ToText() returns (out: string)
      ensures out == ToRaw(attributes)
    {
      out := "";
      var first := true;
      var rest := attributes;
      ghost var done: seq<string> := [];
      while rest != map[]
        invariant InOrder(attributes) == done + InOrder(rest)
        invariant out == Join(done, NEWLINE)
        invariant first <==> done == []
        decreases |rest|
      {
        assert rest.Keys != {};
        LeastExists(rest.Keys);
        assert exists k :: k in rest && forall j | j in rest :: k <= j by {
          var k :| IsLeast(k, rest.Keys);
          assert k in rest && forall j | j in rest :: k <= j;
        }
        var k :| k in rest && forall j | j in rest :: k <= j;
        assert k == Least(rest.Keys);
        if !first {
          out := out + [NEWLINE];
          JoinSnoc(done, rest[k], NEWLINE);
        }
        first := false;
        out := out + rest[k];
        done := done + [rest[k]];
        Shrinks(rest, k);
        rest := rest - {k};
      }
      assert InOrder(attributes) == done;
    }
  }

  /** Position of the next newline at or after `i`, or the end of the text. */
  method NextNewline(raw: string, i: nat) returns (j: nat)
    requires i <= |raw|
    ensures i <= j <= |raw| && NEWLINE !in raw[i..j]
    ensures j < |raw| ==> raw[j] == NEWLINE
  {
    j := i;
    while j < |raw| && raw[j] != NEWLINE
      invariant i <= j <= |raw| && NEWLINE !in raw[i..j]
    {
      j := j + 1;
    }
  }

  /** Line-by-line loading: the last line may lack its newline, and a final newline adds an empty
      attribute after the loop. */
  method Load(raw: string) returns (attrs: Attributes)
    ensures attrs == FromRaw(raw)
  {
    ghost var lines: seq<string> := [];
    attrs := map[];
    var attrNo, i := 1, 0;
    assert raw[0..] == raw;
    while i < |raw|
      invariant 0 <= i <= |raw| && attrNo == |lines| + 1
      invariant attrs == Numbered(lines, 1)
      invariant Lines(raw) == Unread(raw, lines, i)
    {
      var j := NextNewline(raw, i);
      var line := raw[i..j];
      attrs := attrs[attrNo := line];
      NumberedSnoc(lines, 1, line);
      TakeLine(raw, lines, i, j);
      lines := lines + [line];
      attrNo := attrNo + 1;
      i := if j < |raw| then j + 1 else j;
    }
    if raw != "" && raw[|raw| - 1] == NEWLINE {
      attrs := attrs[attrNo := ""];
      NumberedSnoc(lines, 1, "");
    }
  }

  /** All lines of `raw`, given those before position `i`, which is at the start of a line. */
  ghost function Unread(raw: string, lines: seq<string>, i: nat): seq<string>
    requires i <= |raw|
  {
    if i < |raw| then lines + Split(raw[i..], NEWLINE)
    else if raw != "" && raw[|raw| - 1] == NEWLINE then lines + [""]
    else lines
  }

  lemma TakeLine(raw: string, lines: seq<string>, i: nat, j: nat)
    requires i < |raw| && i <= j <= |raw| && NEWLINE !in raw[i..j]
    requires j < |raw| ==> raw[j] == NEWLINE
    ensures Unread(raw, lines, i) == Unread(raw, lines + [raw[i..j]], if j < |raw| then j + 1 else j)
  {
    var line := raw[i..j];
    if j < |raw| {
      assert raw[i..] == line + [NEWLINE] + raw[j + 1..];
      SplitHead(line, raw[j + 1..], NEWLINE);
      assert lines + ([line] + Split(raw[j + 1..], NEWLINE)) == lines + [line] + Split(raw[j + 1..], NEWLINE);
    } else {
      assert raw[i..] == line;
      SplitHead(line, "", NEWLINE);
      assert raw[|raw| - 1] == line[|line| - 1];
    }
  }

  // ---------------------------------------------------------------------------------------------
  // Record-level writes (WRITEV)
  // ---------------------------------------------------------------------------------------------

  function Attr(raw: string, n: int): string {
    Attribute(FromRaw(raw), n)
  }

  ghost function WriteAttribute(raw: string, n: int, text: string): string {
    ToRaw(SetAttribute(FromRaw(raw), n, text))
  }

  /** The value list padded to `count` entries. */
  function Padded(values: seq<string>, count: nat): seq<string> {
    values + seq(if count > |values| then count - |values| else 0, _ => "")
  }

  /** The attribute text after value `i` becomes `text`, with earlier missing values left empty. */
  function ReplaceValue(attr: string, i: nat, text: string): string
    requires i >= 1
  {
    Join(Padded(Split(attr, VALUE_MARK), i)[i - 1 := text], VALUE_MARK)
  }

  ghost function WriteSubvalue(raw: string, n: int, i: nat, text: string): string
    requires i >= 1
  {
    WriteAttribute(raw, n, ReplaceValue(Attr(raw, n), i, text))
  }

  lemma AttrIsPiece(raw: string, k: int)
    ensures Attr(raw, k) == Piece(Split(raw, NEWLINE), k) == Piece(Lines(raw), k)
    ensures NEWLINE !in Attr(raw, k)
  {
    NumberedAt(Lines(raw), 1);
    SplitIsFree(raw, NEWLINE);
  }

  /** What the record holds after the write, as a list of attribute texts. */
  lemma WriteAttributeLines(raw: string, n: int, text: string)
    ensures var ls := Lines(raw);
            WriteAttribute(raw, n, text) ==
              if n <= 0 then raw
              else if n <= |ls| then Join(ls[n - 1 := text], NEWLINE)
              else Join(ls + [text], NEWLINE)
  {
    var ls := Lines(raw);
    if n <= 0 {
      ToRawFromRaw(raw);
    } else if n <= |ls| {
      NumberedAt(ls, 1);
      NumberedAt(ls[n - 1 := text], 1);
      var changed := Numbered(ls[n - 1 := text], 1);
      assert forall k :: k in FromRaw(raw)[n := text] <==> k in changed;
      assert forall k | k in changed :: FromRaw(raw)[n := text][k] == changed[k];
      assert FromRaw(raw)[n := text] == changed;
      InOrderNumbered(ls[n - 1 := text], 1);
    } else {
      NumberedAt(ls, 1);
      InOrderAbove(FromRaw(raw), n, text);
      InOrderNumbered(ls, 1);
    }
  }

  lemma LinesAreFree(raw: string)
    ensures Free(Lines(raw), NEWLINE)
  {
    if raw != "" {
      SplitIsFree(raw, NEWLINE);
    }
  }

  /** The attribute that is replaced, in a record that has room for it. */
  function Roomy(raw: string, n: nat): (ls: seq<string>)
    requires n >= 1
    ensures |ls| >= 1
  {
    if n <= |Lines(raw)| then Lines(raw) else Lines(raw) + [""]
  }

  function Place(raw: string, n: nat): (i: nat)
    requires n >= 1
    ensures i < |Roomy(raw, n)|
  {
    if n <= |Lines(raw)| then n - 1 else |Lines(raw)|
  }

  /** What every attribute holds after the write: each newline in the text starts another attribute and
      moves the later ones up. */
  lemma WriteEffect(raw: string, n: int, text: string, k: int)
    ensures Attr(WriteAttribute(raw, n, text), k) ==
              if n <= 0 then Attr(raw, k) else Piece(Spliced(Roomy(raw, n), Place(raw, n), text, NEWLINE), k)
  {
    hide Split, Join, WriteAttribute, Attr, Spliced, Lines;
    WriteAttributeLines(raw, n, text);
    LinesAreFree(raw);
    AttrIsPiece(WriteAttribute(raw, n, text), k);
    if n > 0 {
      SplitSplice(Roomy(raw, n), Place(raw, n), text, NEWLINE);
      assert (Lines(raw) + [""])[|Lines(raw)| := text] == Lines(raw) + [text];
    }
  }

  /** A written attribute reads back exactly when the text is one line and the attribute is at most one
      past the last, or the text is empty: a write further out is stored next to the last attribute. */
  lemma WriteThenRead(raw: string, n: int, text: string)
    ensures Attr(WriteAttribute(raw, n, text), n) == text <==> NEWLINE !in text && (1 <= n <= |Lines(raw)| + 1 || text == "")
    ensures NEWLINE !in text && 1 <= n <= |Lines(raw)| + 1 ==>
              forall k | k != n :: Attr(WriteAttribute(raw, n, text), k) == Attr(raw, k)
    ensures NEWLINE !in text && n > |Lines(raw)| + 1 ==> Attr(WriteAttribute(raw, n, text), |Lines(raw)| + 1) == text
  {
    hide Split, Join, WriteAttribute, Attr, Lines;
    AttrIsPiece(WriteAttribute(raw, n, text), n);
    AttrIsPiece(raw, n);
    WriteEffect(raw, n, text, n);
    WriteEffect(raw, n, text, |Lines(raw)| + 1);
    if NEWLINE !in text {
      SplitHead(text, "", NEWLINE);
      forall k | k != n && 1 <= n <= |Lines(raw)| + 1
        ensures Attr(WriteAttribute(raw, n, text), k) == Attr(raw, k)
      {
        WriteEffect(raw, n, text, k);
        AttrIsPiece(raw, k);
      }
    }
  }

  lemma {:induction false} NoMarkInJoin(pieces: seq<string>, mark: char, other: char)
    requires mark != other && Free(pieces, other)
    ensures other !in Join(pieces, mark)
  {
    if |pieces| > 1 {
      NoMarkInJoin(pieces[1..], mark, other);
    }
  }

  lemma {:induction false} SplitKeepsFree(s: string, mark: char, other: char)
    requires other !in s
    ensures Free(Split(s, mark), other)
  {
    if s != "" {
      SplitKeepsFree(s[1..], mark, other);
    }
  }

  /** Replacing one value: each mark in the text starts another value. The value reads back exactly when
      the text has no mark, and then every other value is as it was. */
  lemma ReplaceValueEffect(attr: string, i: nat, text: string)
    requires i >= 1
    ensures forall j :: ValueAt(ReplaceValue(attr, i, text), j) ==
                        Piece(Spliced(Padded(Split(attr, VALUE_MARK), i), i - 1, text, VALUE_MARK), j)
    ensures ValueAt(ReplaceValue(attr, i, text), i) == text <==> VALUE_MARK !in text
    ensures VALUE_MARK !in text ==> forall j | j != i :: ValueAt(ReplaceValue(attr, i, text), j) == ValueAt(attr, j)
    ensures NEWLINE !in attr && NEWLINE !in text ==> NEWLINE !in ReplaceValue(attr, i, text)
  {
    var values := Padded(Split(attr, VALUE_MARK), i);
    hide Split, Join;
    SplitIsFree(attr, VALUE_MARK);
    SplitSplice(values, i - 1, text, VALUE_MARK);
    ValueHasNoMark(ReplaceValue(attr, i, text), i);
    if VALUE_MARK !in text {
      SplitHead(text, "", VALUE_MARK);
    }
    if NEWLINE !in attr && NEWLINE !in text {
      SplitKeepsFree(attr, VALUE_MARK, NEWLINE);
      NoMarkInJoin(values[i - 1 := text], VALUE_MARK, NEWLINE);
    }
  }

  lemma ValueHasNoMark(attr: string, i: int)
    ensures VALUE_MARK !in ValueAt(attr, i)
    ensures NEWLINE !in attr ==> NEWLINE !in ValueAt(attr, i)
  {
    SplitIsFree(attr, VALUE_MARK);
    if NEWLINE !in attr {
      SplitKeepsFree(attr, VALUE_MARK, NEWLINE);
    }
  }

  lemma ValueOfNothing(i: int)
    ensures ValueAt("", i) == ""
  {
  }

  /** WRITEV of one value: it reads back exactly when the text holds no mark and the attribute is at most
      one past the last, or the text is empty; every other value of every attribute is then kept. */
  lemma WriteSubvalueThenRead(raw: string, n: int, i: nat, text: string)
    requires i >= 1
    ensures ValueAt(Attr(WriteSubvalue(raw, n, i, text), n), i) == text <==>
            NEWLINE !in text && VALUE_MARK !in text && (1 <= n <= |Lines(raw)| + 1 || text == "")
    ensures NEWLINE !in text && VALUE_MARK !in text && 1 <= n <= |Lines(raw)| + 1 ==>
              && (forall j | j != i :: ValueAt(Attr(WriteSubvalue(raw, n, i, text), n), j) == ValueAt(Attr(raw, n), j))
              && forall k | k != n :: Attr(WriteSubvalue(raw, n, i, text), k) == Attr(raw, k)
  {
    hide Split, Join, WriteAttribute, Attr, Lines, ReplaceValue, ValueAt;
    var written := ReplaceValue(Attr(raw, n), i, text);
    AttrIsPiece(raw, n);
    AttrIsPiece(WriteSubvalue(raw, n, i, text), n);
    ValueHasNoMark(Attr(WriteSubvalue(raw, n, i, text), n), i);
    ReplaceValueEffect(Attr(raw, n), i, text);
    WriteThenRead(raw, n, written);
    if NEWLINE !in text && VALUE_MARK !in text && !(1 <= n <= |Lines(raw)| + 1) {
      WriteEffect(raw, n, written, n);
      SplitHead(written, "", NEWLINE);
      ValueOfNothing(i);
    }
  }

  // ---------------------------------------------------------------------------------------------
  // MAT READ and MAT WRITE
  // ---------------------------------------------------------------------------------------------

  /** MAT READ into an array of `size` strings; fails unless the attribute count is the array size. */
  function MatLoad(raw: string, size: nat): (r: (bool, seq<string>)) {
    var ls := Lines(raw);
    if |ls| == size then (true, ls) else (false, [])
  }

  /** MAT WRITE stores the elements as attributes 1, 2, ... */
  ghost function MatStore(elements: seq<string>): string {
    ToRaw(Numbered(elements, 1))
  }

  lemma JoinEmpty(pieces: seq<string>, mark: char)
    requires |pieces| >= 1 && Join(pieces, mark) == ""
    ensures pieces == [""]
  {
    assert |Join(pieces, mark)| == 0;
  }

  /** MAT WRITE followed by MAT READ restores the array exactly when no element holds a newline and
      the array is not a single empty element. */
  lemma MatRoundTrip(elements: seq<string>)
    requires |elements| >= 1
    ensures MatLoad(MatStore(elements), |elements|) == (true, elements) <==>
            Free(elements, NEWLINE) && elements != [""]
  {
    InOrderNumbered(elements, 1);
    var raw := Join(elements, NEWLINE);
    assert MatStore(elements) == raw;
    if raw == "" {
      JoinEmpty(elements, NEWLINE);
    } else if Free(elements, NEWLINE) {
      SplitJoin(elements, NEWLINE);
    } else {
      SplitJoinCount(elements, NEWLINE);
    }
  }
}
