/** Rewriting a dotenv file, character by character (app/instagram_setup.py, 78-92). */
module Dotenv {
  import opened Options
  import opened Sequences

  /** Where `str.splitlines` breaks; a carriage return and a line feed after it are one break. */
  predicate IsBreak(c: char) {
    c in {'\n', '\r', '\U{000B}', '\U{000C}', '\U{001C}', '\U{001D}', '\U{001E}', '\U{0085}', '\U{2028}', '\U{2029}'}
  }

  /** What `str.rstrip` removes. */
  predicate IsSpace(c: char) {
    IsBreak(c) || c in {' ', '\t', '\U{001F}', '\U{00A0}', '\U{1680}', '\U{202F}', '\U{205F}', '\U{3000}'} || '\U{2000}' <= c <= '\U{200A}'
  }

  predicate NoBreaks(s: string) {
    forall i :: 0 <= i < |s| ==> !IsBreak(s[i])
  }

  function RStrip(s: string): (r: string)
    ensures r <= s && (r != "" ==> !IsSpace(r[|r| - 1]))
  {
    if s != "" && IsSpace(s[|s| - 1]) then RStrip(s[..|s| - 1]) else s
  }

  function LineEnd(s: string): (n: nat)
    ensures n <= |s| && (n < |s| ==> IsBreak(s[n])) && forall i :: 0 <= i < n ==> !IsBreak(s[i])
  {
    if s == "" || IsBreak(s[0]) then 0
    else
      var n := LineEnd(s[1..]);
      assert forall i :: 1 <= i < n + 1 ==> s[i] == s[1..][i - 1];
      n + 1
  }

  function SplitLines(s: string): seq<string>
    decreases |s|
  {
    if s == "" then []
    else
      var n := LineEnd(s);
      if n == |s| then [s]
      else [s[..n]] + SplitLines(s[if s[n] == '\r' && n + 1 < |s| && s[n + 1] == '\n' then n + 2 else n + 1..])
  }

  function Join(lines: seq<string>): string {
    if lines == [] then "" else if |lines| == 1 then lines[0] else Join(lines[..|lines| - 1]) + "\n" + lines[|lines| - 1]
  }

  function Equals(line: string): (n: nat)
    ensures n <= |line| && (n < |line| ==> line[n] == '=') && forall i :: 0 <= i < n ==> line[i] != '='
  {
    if line == "" || line[0] == '=' then 0
    else
      var n := Equals(line[1..]);
      assert forall i :: 1 <= i < n + 1 ==> line[i] == line[1..][i - 1];
      n + 1
  }

  /** `line.partition("=")`: the part before the first separator, when there is one. */
  function KeyOf(line: string): Option<string> {
    if Equals(line) < |line| then Some(line[..Equals(line)]) else None
  }

  function ValueOf(line: string): string
    requires KeyOf(line).Some?
  {
    line[Equals(line) + 1..]
  }

  function Entry(key: string, value: string): string {
    key + "=" + value
  }

  /** The dictionary, in its order. */
  datatype Values = Values(order: seq<string>, of: map<string, string>)

  /** Keys without separator, nothing with a line break; what the dictionary type gives. */
  ghost predicate ValidValues(vs: Values) {
    && (forall i, j :: 0 <= i < j < |vs.order| ==> vs.order[i] != vs.order[j])
    && (forall key :: key in vs.order <==> key in vs.of)
    && (forall key :: key in vs.of ==> '=' !in key && NoBreaks(key) && NoBreaks(vs.of[key]))
  }

  predicate Sets(line: string, vs: Values) {
    KeyOf(line).Some? && KeyOf(line).value in vs.of
  }

  /** The keys of the dictionary that the lines set. */
  function Written(lines: seq<string>, vs: Values): set<string> {
    set line | line in lines && Sets(line, vs) :: KeyOf(line).value
  }

  /** The first loop: the first line of each key is rewritten, further ones are dropped, other lines stay. */
  function Kept(lines: seq<string>, vs: Values): seq<string> {
    if lines == [] then []
    else
      var front, last := lines[..|lines| - 1], lines[|lines| - 1];
      if !Sets(last, vs) then Kept(front, vs) + [last]
      else if KeyOf(last).value in Written(front, vs) then Kept(front, vs)
      else Kept(front, vs) + [Entry(KeyOf(last).value, vs.of[KeyOf(last).value])]
  }

  /** The second loop: the keys that were not there. */
  function Appended(order: seq<string>, vs: Values, written: set<string>): seq<string>
    requires forall key :: key in order ==> key in vs.of
  {
    if order == [] then []
    else
      var last := order[|order| - 1];
      Appended(order[..|order| - 1], vs, written) + if last in written then [] else [Entry(last, vs.of[last])]
  }

  function Output(lines: seq<string>, vs: Values): seq<string>
    requires forall key :: key in vs.order ==> key in vs.of
  {
    Kept(lines, vs) + Appended(vs.order, vs, Written(lines, vs))
  }

  function Updated(content: string, vs: Values): string
    requires forall key :: key in vs.order ==> key in vs.of
  {
    RStrip(Join(Output(SplitLines(content), vs))) + "\n"
  }

  /** `update_dotenv`. */
  method UpdateDotenv(content: string, vs: Values) returns (r: string)
    requires forall key :: key in vs.order <==> key in vs.of
    ensures r == Updated(content, vs)
  {
    var lines := SplitLines(content);
    var written: set<string>, output: seq<string> := {}, [];
    for i := 0 to |lines|
      invariant written == Written(lines[..i], vs)
      invariant output == Kept(lines[..i], vs)
    {
      var key := KeyOf(lines[i]);
      assert lines[..i + 1][..i] == lines[..i];
      WrittenOneMore(lines[..i], lines[i], lines[..i + 1], vs);
      if key.Some? && key.value in vs.of {
        if key.value !in written {
          output := output + [Entry(key.value, vs.of[key.value])];
          written := written + {key.value};
        }
      } else {
        output := output + [lines[i]];
      }
    }
    assert lines[..|lines|] == lines;
    ghost var kept := output;
    for i := 0 to |vs.order|
      invariant output == kept + Appended(vs.order[..i], vs, written)
    {
      assert vs.order[..i + 1][..i] == vs.order[..i];
      if vs.order[i] !in written {
        output := output + [Entry(vs.order[i], vs.of[vs.order[i]])];
      }
    }
    assert vs.order[..|vs.order|] == vs.order;
    r := RStrip(Join(output)) + "\n";
  }

  lemma WrittenOneMore(front: seq<string>, last: string, lines: seq<string>, vs: Values)
    requires lines == front + [last]
    ensures Written(lines, vs) == Written(front, vs) + if Sets(last, vs) then {KeyOf(last).value} else {}
  {
    assert forall line :: line in lines <==> line in front || line == last;
  }

  /** The values that the lines give a key, in order. */
  function ValuesOf(lines: seq<string>, key: string): seq<string> {
    if lines == [] then []
    else
      var last := lines[|lines| - 1];
      ValuesOf(lines[..|lines| - 1], key) + if KeyOf(last) == Some(key) then [ValueOf(last)] else []
  }

  /** The lines that set none of the dictionary's keys. */
  function Others(lines: seq<string>, vs: Values): seq<string> {
    if lines == [] then []
    else
      var last := lines[|lines| - 1];
      Others(lines[..|lines| - 1], vs) + if Sets(last, vs) then [] else [last]
  }

  lemma EntryParses(key: string, value: string)
    requires '=' !in key
    ensures KeyOf(Entry(key, value)) == Some(key) && ValueOf(Entry(key, value)) == value
  {
    var line := Entry(key, value);
    var n := Equals(line);
    assert line[|key|] == '=';
    assert forall i :: 0 <= i < |key| ==> line[i] == key[i];
    assert n == |key|;
    assert line[..n] == key && line[n + 1..] == value;
  }

  lemma ValuesOfSnoc(lines: seq<string>, line: string, key: string)
    ensures ValuesOf(lines + [line], key) == ValuesOf(lines, key) + if KeyOf(line) == Some(key) then [ValueOf(line)] else []
  {
    assert (lines + [line])[..|lines|] == lines;
  }

  lemma OthersSnoc(lines: seq<string>, line: string, vs: Values)
    ensures Others(lines + [line], vs) == Others(lines, vs) + if Sets(line, vs) then [] else [line]
  {
    assert (lines + [line])[..|lines|] == lines;
  }

  lemma {:induction false} KeptValues(lines: seq<string>, vs: Values, key: string)
    requires ValidValues(vs)
    ensures ValuesOf(Kept(lines, vs), key)
            == if key !in vs.of then ValuesOf(lines, key) else if key in Written(lines, vs) then [vs.of[key]] else []
    decreases |lines|
  {
    if lines != [] {
      var front, last := lines[..|lines| - 1], lines[|lines| - 1];
      KeptValues(front, vs, key);
      WrittenOneMore(front, last, lines, vs);
      if !Sets(last, vs) {
        ValuesOfSnoc(Kept(front, vs), last, key);
      } else if KeyOf(last).value !in Written(front, vs) {
        var k := KeyOf(last).value;
        EntryParses(k, vs.of[k]);
        ValuesOfSnoc(Kept(front, vs), Entry(k, vs.of[k]), key);
      }
    }
  }

  lemma AppendedSnoc(kept: seq<string>, order: seq<string>, vs: Values, written: set<string>)
    requires order != [] && forall k :: k in order ==> k in vs.of
    ensures var n := |order| - 1;
            kept + Appended(order, vs, written)
            == if order[n] in written then kept + Appended(order[..n], vs, written)
               else kept + Appended(order[..n], vs, written) + [Entry(order[n], vs.of[order[n]])]
  {
  }

  lemma {:induction false} AppendedValues(kept: seq<string>, order: seq<string>, vs: Values, written: set<string>, key: string)
    requires ValidValues(vs) && (forall i, j :: 0 <= i < j < |order| ==> order[i] != order[j]) && forall k :: k in order ==> k in vs.of
    ensures ValuesOf(kept + Appended(order, vs, written), key)
            == ValuesOf(kept, key) + if key in order && key !in written then [vs.of[key]] else []
    decreases |order|
  {
    if order == [] {
      assert kept + Appended(order, vs, written) == kept;
    } else {
      var front, last := order[..|order| - 1], order[|order| - 1];
      var before := kept + Appended(front, vs, written);
      SplitLast(order);
      AppendedValues(kept, front, vs, written, key);
      AppendedSnoc(kept, order, vs, written);
      assert last !in front && (key in order <==> key in front || key == last);
      if last !in written {
        AppendedEntry(before, last, vs, key);
      }
    }
  }

  lemma AppendedEntry(before: seq<string>, last: string, vs: Values, key: string)
    requires ValidValues(vs) && last in vs.of
    ensures ValuesOf(before + [Entry(last, vs.of[last])], key) == ValuesOf(before, key) + if key == last then [vs.of[key]] else []
  {
    EntryParses(last, vs.of[last]);
    ValuesOfSnoc(before, Entry(last, vs.of[last]), key);
  }

  /** Each updated key is on exactly one line, with its new value; every other key keeps its values. */
  lemma OutputValues(lines: seq<string>, vs: Values, key: string)
    requires ValidValues(vs)
    ensures ValuesOf(Output(lines, vs), key) == if key in vs.of then [vs.of[key]] else ValuesOf(lines, key)
  {
    KeptValues(lines, vs, key);
    AppendedValues(Kept(lines, vs), vs.order, vs, Written(lines, vs), key);
  }

  lemma {:induction false} KeptOthers(lines: seq<string>, vs: Values)
    requires ValidValues(vs)
    ensures Others(Kept(lines, vs), vs) == Others(lines, vs)
    decreases |lines|
  {
    if lines != [] {
      var front, last := lines[..|lines| - 1], lines[|lines| - 1];
      KeptOthers(front, vs);
      if !Sets(last, vs) {
        OthersSnoc(Kept(front, vs), last, vs);
      } else if KeyOf(last).value !in Written(front, vs) {
        var k := KeyOf(last).value;
        EntryParses(k, vs.of[k]);
        OthersSnoc(Kept(front, vs), Entry(k, vs.of[k]), vs);
      }
    }
  }

  lemma {:induction false} AppendedOthers(kept: seq<string>, order: seq<string>, vs: Values, written: set<string>)
    requires ValidValues(vs) && forall k :: k in order ==> k in vs.of
    ensures Others(kept + Appended(order, vs, written), vs) == Others(kept, vs)
    decreases |order|
  {
    if order == [] {
      assert kept + Appended(order, vs, written) == kept;
    } else {
      var front, last := order[..|order| - 1], order[|order| - 1];
      AppendedOthers(kept, front, vs, written);
      AppendedSnoc(kept, order, vs, written);
      EntryParses(last, vs.of[last]);
      OthersSnoc(kept + Appended(front, vs, written), Entry(last, vs.of[last]), vs);
    }
  }

  /** All other lines are kept, in order. */
  lemma OutputOthers(lines: seq<string>, vs: Values)
    requires ValidValues(vs)
    ensures Others(Output(lines, vs), vs) == Others(lines, vs)
  {
    KeptOthers(lines, vs);
    AppendedOthers(Kept(lines, vs), vs.order, vs, Written(lines, vs));
  }

  /** What stripping the end of the file does to its lines: trailing blank lines go, and the last line that stays
      is stripped; a file of blanks is one empty line. */
  function TrimEnd(lines: seq<string>): (r: seq<string>)
    ensures r != []
  {
    if lines == [] then [""]
    else
      var n := |lines| - 1;
      if n == 0 then [RStrip(lines[0])]
      else if RStrip(lines[n]) == "" then TrimEnd(lines[..n])
      else lines[..n] + [RStrip(lines[n])]
  }

  lemma {:induction false} RStripConcat(x: string, y: string)
    ensures RStrip(x + y) == if RStrip(y) == "" then RStrip(x) else x + RStrip(y)
    decreases |y|
  {
    if y == "" {
      assert x + y == x;
    } else if IsSpace(y[|y| - 1]) {
      RStripConcat(x, y[..|y| - 1]);
      assert (x + y)[..|x + y| - 1] == x + y[..|y| - 1];
    } else {
      assert (x + y)[|x + y| - 1] == y[|y| - 1];
    }
  }

  lemma {:induction false} RStripJoin(lines: seq<string>)
    ensures RStrip(Join(lines)) == Join(TrimEnd(lines))
    decreases |lines|
  {
    if |lines| > 1 {
      var front, last := lines[..|lines| - 1], lines[|lines| - 1];
      RStripJoin(front);
      RStripConcat(Join(front) + "\n", last);
      RStripConcat(Join(front), "\n");
      assert RStrip("\n"[..0]) == "";
      assert RStrip("\n") == "";
      if RStrip(last) != "" {
        assert (front + [RStrip(last)])[..|front|] == front;
      }
    }
  }

  ghost predicate AllNoBreaks(lines: seq<string>) {
    forall i :: 0 <= i < |lines| ==> NoBreaks(lines[i])
  }

  /** Every line followed by a line feed. */
  function Text(lines: seq<string>): string {
    if lines == [] then "" else lines[0] + "\n" + Text(lines[1..])
  }

  lemma {:induction false} TextSnoc(lines: seq<string>, last: string)
    ensures Text(lines + [last]) == Text(lines) + last + "\n"
    decreases |lines|
  {
    if lines == [] {
      assert (lines + [last])[1..] == [];
    } else {
      TextSnoc(lines[1..], last);
      assert (lines + [last])[1..] == lines[1..] + [last];
    }
  }

  lemma {:induction false} JoinIsText(lines: seq<string>)
    requires lines != []
    ensures Join(lines) + "\n" == Text(lines)
    decreases |lines|
  {
    var front, last := lines[..|lines| - 1], lines[|lines| - 1];
    TextSnoc(front, last);
    SplitLast(lines);
    if |lines| > 1 {
      JoinIsText(front);
    }
  }

  lemma LineEndAt(line: string, rest: string)
    requires NoBreaks(line)
    ensures LineEnd(line + "\n" + rest) == |line|
  {
    var s := line + "\n" + rest;
    assert s[|line|] == '\n';
    assert forall i :: 0 <= i < |line| ==> s[i] == line[i];
  }

  /** Splitting undoes writing lines. */
  lemma {:induction false} SplitText(lines: seq<string>)
    requires AllNoBreaks(lines)
    ensures SplitLines(Text(lines)) == lines
    decreases |lines|
  {
    if lines != [] {
      var s := lines[0] + "\n" + Text(lines[1..]);
      SplitText(lines[1..]);
      LineEndAt(lines[0], Text(lines[1..]));
      assert s[|lines[0]| + 1..] == Text(lines[1..]);
      assert s[..|lines[0]|] == lines[0];
      assert s[|lines[0]|] == '\n';
    }
  }

  lemma {:induction false} SplitHasNoBreaks(s: string)
    ensures AllNoBreaks(SplitLines(s))
    decreases |s|
  {
    if s != "" {
      var n := LineEnd(s);
      if n < |s| {
        SplitHasNoBreaks(s[if s[n] == '\r' && n + 1 < |s| && s[n + 1] == '\n' then n + 2 else n + 1..]);
      }
    }
  }

  lemma {:induction false} KeptHasNoBreaks(lines: seq<string>, vs: Values)
    requires ValidValues(vs) && AllNoBreaks(lines)
    ensures AllNoBreaks(Kept(lines, vs))
    decreases |lines|
  {
    if lines != [] {
      KeptHasNoBreaks(lines[..|lines| - 1], vs);
    }
  }

  lemma {:induction false} AppendedHasNoBreaks(order: seq<string>, vs: Values, written: set<string>)
    requires ValidValues(vs) && forall k :: k in order ==> k in vs.of
    ensures AllNoBreaks(Appended(order, vs, written))
    decreases |order|
  {
    if order != [] {
      AppendedHasNoBreaks(order[..|order| - 1], vs, written);
    }
  }

  lemma {:induction false} TrimHasNoBreaks(lines: seq<string>)
    requires AllNoBreaks(lines)
    ensures AllNoBreaks(TrimEnd(lines))
    decreases |lines|
  {
    if |lines| > 1 {
      TrimHasNoBreaks(lines[..|lines| - 1]);
    }
  }

  /** The lines of the new file are the output lines, trimmed at the end. */
  lemma UpdatedLines(content: string, vs: Values)
    requires ValidValues(vs)
    ensures Updated(content, vs) == Text(TrimEnd(Output(SplitLines(content), vs)))
    ensures SplitLines(Updated(content, vs)) == TrimEnd(Output(SplitLines(content), vs))
  {
    var lines := SplitLines(content);
    var output := Output(lines, vs);
    RStripJoin(output);
    JoinIsText(TrimEnd(output));
    SplitHasNoBreaks(content);
    KeptHasNoBreaks(lines, vs);
    AppendedHasNoBreaks(vs.order, vs, Written(lines, vs));
    TrimHasNoBreaks(output);
    SplitText(TrimEnd(output));
  }

  /** Trimming keeps the lines up to the last that is not blank, and strips that one. */
  lemma {:induction false} TrimKeepsLines(lines: seq<string>) returns (n: nat)
    requires lines != []
    ensures 0 < n <= |lines| && TrimEnd(lines) == lines[..n - 1] + [RStrip(lines[n - 1])]
    ensures forall i :: n <= i < |lines| ==> RStrip(lines[i]) == ""
    decreases |lines|
  {
    var last := |lines| - 1;
    if last > 0 && RStrip(lines[last]) == "" {
      n := TrimKeepsLines(lines[..last]);
      assert lines[..last][..n - 1] == lines[..n - 1];
    } else {
      n := |lines|;
    }
  }

  /** The new file: lines that hold every other line of the old file, in order, up to white space at the end. */
  lemma UpdateKeepsOtherLines(content: string, vs: Values) returns (output: seq<string>)
    requires ValidValues(vs)
    ensures Others(output, vs) == Others(SplitLines(content), vs)
    ensures SplitLines(Updated(content, vs)) == TrimEnd(output)
  {
    output := Output(SplitLines(content), vs);
    UpdatedLines(content, vs);
    OutputOthers(SplitLines(content), vs);
  }

  lemma {:induction false} RStripIdempotent(s: string)
    ensures RStrip(RStrip(s)) == RStrip(s)
  {
  }

  /** Stripping a line strips its value and leaves its key. */
  lemma RStripParses(line: string)
    ensures KeyOf(RStrip(line)) == KeyOf(line)
    ensures KeyOf(line).Some? ==> ValueOf(RStrip(line)) == RStrip(ValueOf(line))
  {
    if KeyOf(line).Some? {
      SettingParses(line, KeyOf(line).value, ValueOf(line));
    } else {
      var stripped := RStrip(line);
      assert forall i :: 0 <= i < |stripped| ==> stripped[i] == line[i];
    }
  }

  lemma SettingParses(line: string, key: string, value: string)
    requires line == Entry(key, value) && '=' !in key
    ensures RStrip(line) == Entry(key, RStrip(value))
    ensures KeyOf(RStrip(line)) == Some(key) && ValueOf(RStrip(line)) == RStrip(value)
  {
    RStripConcat(key + "=", value);
    RStripConcat(key, "=");
    VisibleStays('=');
    EntryParses(key, RStrip(value));
  }

  lemma VisibleStays(c: char)
    requires !IsSpace(c)
    ensures RStrip([c]) == [c]
  {
  }

  lemma BlankHasNoKey(line: string)
    requires RStrip(line) == ""
    ensures KeyOf(line).None?
  {
    RStripParses(line);
  }

  /** The last line that is not blank. */
  function LastVisible(lines: seq<string>): Option<string> {
    if lines == [] then None
    else if RStrip(lines[|lines| - 1]) != "" then Some(lines[|lines| - 1])
    else LastVisible(lines[..|lines| - 1])
  }

  /** The last line that is not blank sets this key. */
  predicate EndsWith(lines: seq<string>, key: string) {
    LastVisible(lines).Some? && KeyOf(LastVisible(lines).value) == Some(key)
  }

  predicate Trimmed(values: seq<string>) {
    values == [] || RStrip(values[|values| - 1]) == values[|values| - 1]
  }

  function StripLast(values: seq<string>): (r: seq<string>)
    ensures |r| == |values| && (r == values <==> Trimmed(values)) && Trimmed(r)
  {
    if values == [] then []
    else
      RStripIdempotent(values[|values| - 1]);
      var r := values[|values| - 1 := RStrip(values[|values| - 1])];
      assert r == values <==> r[|values| - 1] == values[|values| - 1];
      r
  }

  lemma StripLastOf(front: seq<string>, last: string)
    ensures StripLast(front + [last]) == front + [RStrip(last)]
  {
  }

  lemma VisibleLastValues(front: seq<string>, last: string, key: string)
    requires RStrip(last) != ""
    ensures var values := ValuesOf(front + [last], key);
            && (KeyOf(last) == Some(key) ==> values != [])
            && ValuesOf(front + [RStrip(last)], key) == if KeyOf(last) == Some(key) then StripLast(values) else values
  {
    RStripParses(last);
    ValuesOfSnoc(front, last, key);
    ValuesOfSnoc(front, RStrip(last), key);
    if KeyOf(last) == Some(key) {
      StripLastOf(ValuesOf(front, key), ValueOf(last));
    }
  }

  lemma BlankLastValues(front: seq<string>, last: string, key: string)
    requires RStrip(last) == ""
    ensures ValuesOf(front + [last], key) == ValuesOf(front, key)
  {
    BlankHasNoKey(last);
    ValuesOfSnoc(front, last, key);
  }

  /** Trimming drops no value and strips exactly the one on the last line that is not blank. */
  lemma {:induction false} TrimKeepsValues(lines: seq<string>, key: string)
    ensures EndsWith(lines, key) ==> ValuesOf(lines, key) != []
    ensures ValuesOf(TrimEnd(lines), key) == if EndsWith(lines, key) then StripLast(ValuesOf(lines, key)) else ValuesOf(lines, key)
    decreases |lines|
  {
    if lines != [] {
      var front, last := lines[..|lines| - 1], lines[|lines| - 1];
      SplitLast(lines);
      if RStrip(last) != "" {
        VisibleLastValues(front, last, key);
      } else {
        BlankLastValues(front, last, key);
        if front == [] {
          assert LastVisible(front) == None;
          BlankLastValues(front, "", key);
        } else {
          TrimKeepsValues(front, key);
        }
      }
    }
  }

  /** What the file holds of a key after an update: the new value of an updated key, the old ones of any other. */
  function Expected(content: string, vs: Values, key: string): seq<string> {
    if key in vs.of then [vs.of[key]] else ValuesOf(SplitLines(content), key)
  }

  /** Reading the new file back gives exactly that, unless white space ends the value on the last line that is not
      blank, and then exactly that white space is lost. */
  lemma UpdatedValues(content: string, vs: Values, key: string)
    requires ValidValues(vs)
    ensures var expected, found := Expected(content, vs, key), ValuesOf(SplitLines(Updated(content, vs)), key);
            var last := EndsWith(Output(SplitLines(content), vs), key);
            && found == (if last then StripLast(expected) else expected)
            && (found == expected <==> (last ==> Trimmed(expected)))
  {
    UpdatedLines(content, vs);
    OutputValues(SplitLines(content), vs, key);
    TrimKeepsValues(Output(SplitLines(content), vs), key);
  }

  /** Two updates: a key has the second value, else the first, else what it had, exactly unless white space ends its
      value and one of the two texts it was in ended with it. */
  lemma UpdatesCompose(content: string, first: Values, second: Values, key: string)
    requires ValidValues(first) && ValidValues(second)
    ensures var expected := if key in second.of then [second.of[key]] else Expected(content, first, key);
            var found := ValuesOf(SplitLines(Updated(Updated(content, first), second)), key);
            var last := EndsWith(Output(SplitLines(Updated(content, first)), second), key)
                        || (key !in second.of && EndsWith(Output(SplitLines(content), first), key));
            && found == (if last then StripLast(expected) else expected)
            && (found == expected <==> (last ==> Trimmed(expected)))
  {
    UpdatedValues(content, first, key);
    UpdatedValues(Updated(content, first), second, key);
  }

  /** Every line of a dictionary key holds its entry, and each key has exactly one. */
  ghost predicate Settled(lines: seq<string>, vs: Values) {
    && (forall i :: 0 <= i < |lines| && Sets(lines[i], vs) ==> lines[i] == Entry(KeyOf(lines[i]).value, vs.of[KeyOf(lines[i]).value]))
    && (forall i, j :: 0 <= i < j < |lines| && Sets(lines[i], vs) && Sets(lines[j], vs) ==> KeyOf(lines[i]) != KeyOf(lines[j]))
  }

  lemma SettledSnoc(lines: seq<string>, line: string, vs: Values)
    requires Settled(lines, vs)
    requires Sets(line, vs) ==> line == Entry(KeyOf(line).value, vs.of[KeyOf(line).value]) && KeyOf(line).value !in Written(lines, vs)
    ensures Settled(lines + [line], vs)
  {
    var more := lines + [line];
    forall i | 0 <= i < |lines| && Sets(lines[i], vs) && Sets(line, vs)
      ensures KeyOf(lines[i]) != KeyOf(line)
    {
      assert lines[i] in lines;
    }
  }

  lemma {:induction false} KeptIsSettled(lines: seq<string>, vs: Values)
    requires ValidValues(vs)
    ensures Settled(Kept(lines, vs), vs) && Written(Kept(lines, vs), vs) == Written(lines, vs)
    decreases |lines|
  {
    if lines != [] {
      var front, last := lines[..|lines| - 1], lines[|lines| - 1];
      KeptIsSettled(front, vs);
      WrittenOneMore(front, last, lines, vs);
      if !Sets(last, vs) {
        SettledSnoc(Kept(front, vs), last, vs);
        WrittenOneMore(Kept(front, vs), last, Kept(lines, vs), vs);
      } else if KeyOf(last).value !in Written(front, vs) {
        var entry := Entry(KeyOf(last).value, vs.of[KeyOf(last).value]);
        EntryParses(KeyOf(last).value, vs.of[KeyOf(last).value]);
        SettledSnoc(Kept(front, vs), entry, vs);
        WrittenOneMore(Kept(front, vs), entry, Kept(lines, vs), vs);
      }
    }
  }

  lemma {:induction false} AppendedIsSettled(kept: seq<string>, order: seq<string>, vs: Values, written: set<string>)
    requires ValidValues(vs) && (forall i, j :: 0 <= i < j < |order| ==> order[i] != order[j]) && forall k :: k in order ==> k in vs.of
    requires Settled(kept, vs) && Written(kept, vs) == written
    ensures var r := kept + Appended(order, vs, written);
            Settled(r, vs) && Written(r, vs) == written + set k | k in order
    decreases |order|
  {
    if order == [] {
      assert kept + Appended(order, vs, written) == kept;
    } else {
      var front, last := order[..|order| - 1], order[|order| - 1];
      AppendedIsSettled(kept, front, vs, written);
      SplitLast(order);
      AppendedSnoc(kept, order, vs, written);
      var before := kept + Appended(front, vs, written);
      if last !in written {
        EntryParses(last, vs.of[last]);
        SettledSnoc(before, Entry(last, vs.of[last]), vs);
        WrittenOneMore(before, Entry(last, vs.of[last]), before + [Entry(last, vs.of[last])], vs);
      }
    }
  }

  lemma OutputIsSettled(lines: seq<string>, vs: Values)
    requires ValidValues(vs)
    ensures Settled(Output(lines, vs), vs) && forall key :: key in vs.of ==> key in Written(Output(lines, vs), vs)
  {
    KeptIsSettled(lines, vs);
    AppendedIsSettled(Kept(lines, vs), vs.order, vs, Written(lines, vs));
  }

  lemma {:induction false} SettledIsKept(lines: seq<string>, vs: Values)
    requires Settled(lines, vs)
    ensures Kept(lines, vs) == lines
    decreases |lines|
  {
    if lines != [] {
      var front, last := lines[..|lines| - 1], lines[|lines| - 1];
      SettledIsKept(front, vs);
      SplitLast(lines);
    }
  }

  /** Rewriting settled lines that were trimmed, and trimming them again, changes nothing. */
  lemma {:induction false} TrimmedIsStable(lines: seq<string>, vs: Values)
    requires Settled(lines, vs)
    ensures TrimEnd(Kept(TrimEnd(lines), vs)) == TrimEnd(lines)
    ensures Written(TrimEnd(lines), vs) == Written(lines, vs)
    decreases |lines|
  {
    if lines != [] {
      var front, last := lines[..|lines| - 1], lines[|lines| - 1];
      SplitLast(lines);
      RStripParses(last);
      WrittenOneMore(front, last, lines, vs);
      if front != [] && RStrip(last) == "" {
        BlankHasNoKey(last);
        TrimmedIsStable(front, vs);
      } else {
        assert TrimEnd(lines) == front + [RStrip(last)];
        WrittenOneMore(front, RStrip(last), TrimEnd(lines), vs);
        StableLast(lines, front, last, vs);
      }
    }
  }

  lemma StableLast(lines: seq<string>, front: seq<string>, last: string, vs: Values)
    requires Settled(lines, vs) && lines == front + [last] && (front == [] || RStrip(last) != "")
    ensures TrimEnd(Kept(front + [RStrip(last)], vs)) == front + [RStrip(last)]
  {
    assert lines[..|front|] == front;
    assert Settled(front, vs);
    SettledIsKept(front, vs);
    SettledIsKept(lines, vs);
    RStripParses(last);
    RStripIdempotent(last);
    var again := if Sets(last, vs) then last else RStrip(last);
    assert (front + [RStrip(last)])[..|front|] == front;
    assert Kept(front + [RStrip(last)], vs) == front + [again];
    assert (front + [again])[..|front|] == front;
  }

  lemma {:induction false} NothingAppended(order: seq<string>, vs: Values, written: set<string>)
    requires forall key :: key in order ==> key in vs.of && key in written
    ensures Appended(order, vs, written) == []
    decreases |order|
  {
    if order != [] {
      NothingAppended(order[..|order| - 1], vs, written);
    }
  }

  /** Updating twice with the same values is updating once. */
  lemma UpdateIdempotent(content: string, vs: Values)
    requires ValidValues(vs)
    ensures Updated(Updated(content, vs), vs) == Updated(content, vs)
  {
    var output := Output(SplitLines(content), vs);
    UpdatedLines(content, vs);
    UpdatedLines(Updated(content, vs), vs);
    OutputIsSettled(SplitLines(content), vs);
    TrimmedIsStable(output, vs);
    NothingAppended(vs.order, vs, Written(TrimEnd(output), vs));
    assert Output(TrimEnd(output), vs) == Kept(TrimEnd(output), vs);
  }

  lemma LastEntryIsVisible(lines: seq<string>, key: string, value: string)
    requires lines != [] && lines[|lines| - 1] == Entry(key, value) && '=' !in key
    ensures EndsWith(lines, key)
  {
    EntryParses(key, value);
    SettingParses(Entry(key, value), key, value);
  }

  /** White space at the end of a new value is lost whenever its key comes last and the file did not have it. */
  lemma TrailingBlankIsLost(content: string, vs: Values, key: string)
    requires ValidValues(vs) && vs.order != [] && vs.order[|vs.order| - 1] == key && key !in Written(SplitLines(content), vs)
    ensures ValuesOf(SplitLines(Updated(content, vs)), key) == [RStrip(vs.of[key])]
  {
    assert Appended(vs.order, vs, Written(SplitLines(content), vs))
        == Appended(vs.order[..|vs.order| - 1], vs, Written(SplitLines(content), vs)) + [Entry(key, vs.of[key])];
    LastEntryIsVisible(Output(SplitLines(content), vs), key, vs.of[key]);
    UpdatedValues(content, vs, key);
  }
}
