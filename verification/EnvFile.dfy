/**
 src/lib/setup.ts:122-143 and src/lib/config/settings-store.ts:60-123: the editor of `.env` replaces the first
 line of a key, the reader believes the last one, and neither keeps a carriage return at the end of a line.
 */
module EnvFile {
  import opened Common

  // ---------------------------------------------------------------------------------------------
  // Text and lines.
  // ---------------------------------------------------------------------------------------------

  predicate KeyChar(c: char) { 'A' <= c <= 'Z' || '0' <= c <= '9' || c == '_' }

  predicate ValidKey(key: string) { key != "" && forall i | 0 <= i < |key| :: KeyChar(key[i]) }

  /** The characters that `.` does not match. */
  predicate LineTerminator(c: char) { c == '\n' || c == '\r' || c == '\U{2028}' || c == '\U{2029}' }

  predicate OneLine(s: string) { forall i | 0 <= i < |s| :: !LineTerminator(s[i]) }

  predicate Whitespace(c: char) {
    || '\U{0009}' <= c <= '\U{000D}' || c == ' ' || c == '\U{00A0}' || c == '\U{1680}' || '\U{2000}' <= c <= '\U{200A}'
    || c == '\U{2028}' || c == '\U{2029}' || c == '\U{202F}' || c == '\U{205F}' || c == '\U{3000}' || c == '\U{FEFF}'
  }

  function TrimStart(s: string): string { if s != "" && Whitespace(s[0]) then TrimStart(s[1..]) else s }

  /** l.trim() === '' or l.trim() starts with '#'. */
  predicate BlankOrComment(line: string) { TrimStart(line) == "" || TrimStart(line)[0] == '#' }

  function StripCr(line: string): string { if line != "" && line[|line| - 1] == '\r' then line[..|line| - 1] else line }

  function NewlineAt(s: string): (i: nat)
    ensures i <= |s| && (i < |s| ==> s[i] == '\n') && forall j | 0 <= j < i :: s[j] != '\n'
  {
    if s == "" || s[0] == '\n' then 0 else 1 + NewlineAt(s[1..])
  }

  /** content.split(/\r?\n/) */
  function Split(s: string): (lines: seq<string>)
    ensures lines != []
    decreases |s|
  {
    var i := NewlineAt(s);
    if i == |s| then [s] else [StripCr(s[..i])] + Split(s[i + 1..])
  }

  function Join(lines: seq<string>): string {
    if lines == [] then "" else if |lines| == 1 then lines[0] else lines[0] + "\n" + Join(lines[1..])
  }

  /** Every line written out with its newline. */
  function Text(lines: seq<string>): string { if lines == [] then "" else lines[0] + "\n" + Text(lines[1..]) }

  lemma {:induction false} TextOfJoin(lines: seq<string>)
    requires lines != []
    ensures Text(lines) == Join(lines) + "\n"
  {
    if |lines| > 1 {
      TextOfJoin(lines[1..]);
    } else {
      assert Text(lines[1..]) == "";
    }
  }

  predicate NoNewline(s: string) { forall i | 0 <= i < |s| :: s[i] != '\n' }

  ghost predicate Lines(lines: seq<string>) { forall i | 0 <= i < |lines| :: NoNewline(lines[i]) }

  function StripAll(lines: seq<string>): seq<string> { seq(|lines|, i requires 0 <= i < |lines| => StripCr(lines[i])) }

  lemma NewlineAtIs(s: string, i: nat)
    requires i < |s| && s[i] == '\n' && forall j | 0 <= j < i :: s[j] != '\n'
    ensures NewlineAt(s) == i
  {
  }

  lemma {:induction false} SplitGivesLines(s: string)
    ensures Lines(Split(s))
    decreases |s|
  {
    var i := NewlineAt(s);
    if i < |s| {
      SplitGivesLines(s[i + 1..]);
    }
  }

  lemma SplitOneMore(line: string, rest: string)
    requires NoNewline(line)
    ensures Split(line + "\n" + rest) == [StripCr(line)] + Split(rest)
  {
    var text := line + "\n" + rest;
    assert text[|line|] == '\n' && text[..|line|] == line && text[|line| + 1..] == rest;
    NewlineAtIs(text, |line|);
  }

  /** Writing lines out, each ended by a newline, and splitting again loses one carriage return a line and no more. */
  lemma {:induction false} SplitOfText(lines: seq<string>)
    requires Lines(lines)
    ensures Split(Text(lines)) == StripAll(lines) + [""]
    decreases |lines|
  {
    hide StripCr, NoNewline;
    if lines != [] {
      var rest := lines[1..];
      SplitOneMore(lines[0], Text(rest));
      hide Split;
      SplitOfText(rest);
      assert StripAll(lines) == [StripCr(lines[0])] + StripAll(rest);
    }
  }

  /** The three character classes by code point. */
  lemma CharacterClasses(c: char)
    ensures KeyChar(c) <==> 48 <= c as int <= 57 || 65 <= c as int <= 90 || c as int == 95
    ensures LineTerminator(c) <==> c as int in {10, 13, 0x2028, 0x2029}
    ensures Whitespace(c) <==>
              9 <= c as int <= 13 || 0x2000 <= c as int <= 0x200A
              || c as int in {32, 0xA0, 0x1680, 0x2028, 0x2029, 0x202F, 0x205F, 0x3000, 0xFEFF}
  {
  }

  /** So many characters of whitespace, and then the end or a hash sign. */
  predicate GapAfter(line: string, k: nat) {
    k <= |line| && (forall i | 0 <= i < k :: Whitespace(line[i])) && (k < |line| ==> line[k] == '#')
  }

  /** Blank but for whitespace, or a comment after it. */
  lemma {:induction false} BlankOrCommentIff(line: string)
    ensures BlankOrComment(line) <==> exists k: nat :: GapAfter(line, k)
    decreases |line|
  {
    assert !Whitespace('#');
    if line != "" && Whitespace(line[0]) {
      var rest := line[1..];
      BlankOrCommentIff(rest);
      if k: nat :| GapAfter(rest, k) {
        assert GapAfter(line, k + 1);
      }
      if k: nat :| GapAfter(line, k) {
        assert k > 0 && GapAfter(rest, k - 1);
      }
    } else {
      assert TrimStart(line) == line;
      if BlankOrComment(line) {
        assert GapAfter(line, 0);
      }
      if k: nat :| GapAfter(line, k) {
        assert k == 0;
      }
    }
  }

  // ---------------------------------------------------------------------------------------------
  // The editor.
  // ---------------------------------------------------------------------------------------------

  predicate HasKey(line: string, key: string) { StartsWith(line, key + "=") }

  /** findIndex; the length stands for -1. */
  function FirstOf(lines: seq<string>, key: string): (i: nat)
    ensures i <= |lines| && (i < |lines| ==> HasKey(lines[i], key)) && forall j | 0 <= j < i :: !HasKey(lines[j], key)
  {
    if lines == [] || HasKey(lines[0], key) then 0 else 1 + FirstOf(lines[1..], key)
  }

  function FirstBlankOrComment(lines: seq<string>): (i: nat)
    ensures i <= |lines| && (i < |lines| ==> BlankOrComment(lines[i])) && forall j | 0 <= j < i :: !BlankOrComment(lines[j])
  {
    if lines == [] || BlankOrComment(lines[0]) then 0 else 1 + FirstBlankOrComment(lines[1..])
  }

  function NewLine(key: string, value: string): string { key + "=" + value }

  function Edit(lines: seq<string>, key: string, value: string): seq<string> {
    var i := FirstOf(lines, key);
    if i < |lines| then lines[i := NewLine(key, value)]
    else
      var at := FirstBlankOrComment(lines);
      lines[..at] + [NewLine(key, value)] + lines[at..]
  }

  /**
   Where an edit writes: over the first line that begins with the key and an equals sign; without one, in front of the first
   blank line or comment; without that, at the end. All other lines stay, in order.
   */
  lemma EditedWhere(lines: seq<string>, key: string, value: string) returns (at: nat)
    ensures at <= |lines|
    ensures var prefix, line, after := key + "=", key + "=" + value, Edit(lines, key, value);
            if exists l :: l in lines && prefix <= l then
              at < |lines| && prefix <= lines[at] && (forall i | 0 <= i < at :: !(prefix <= lines[i])) && after == lines[..at] + [line] + lines[at + 1..]
            else
              && after == lines[..at] + [line] + lines[at..]
              && (forall i | 0 <= i < at :: !BlankOrComment(lines[i])) && (at < |lines| ==> BlankOrComment(lines[at]))
  {
    at := FirstOf(lines, key);
    if at == |lines| {
      forall l | l in lines
        ensures !(key + "=" <= l)
      {
        var i :| 0 <= i < |lines| && lines[i] == l;
        assert !HasKey(lines[i], key);
      }
      at := FirstBlankOrComment(lines);
    } else {
      assert HasKey(lines[at], key) && lines[at] in lines;
      assert forall i | 0 <= i < at :: !HasKey(lines[i], key);
      assert lines[at := key + "=" + value] == lines[..at] + [key + "=" + value] + lines[at + 1..];
    }
  }

  /** An empty line right after an empty line goes. */
  function Collapse(lines: seq<string>): seq<string> {
    var n := |lines|;
    if n == 0 then []
    else Collapse(lines[..n - 1]) + if lines[n - 1] == "" && n > 1 && lines[n - 2] == "" then [] else [lines[n - 1]]
  }

  function DropNewlines(s: string): string { if s != "" && s[0] == '\n' then DropNewlines(s[1..]) else s }

  function Upsert(content: string, key: string, value: string): string {
    DropNewlines(Join(Collapse(Edit(Split(content), key, value)))) + "\n"
  }

  method UpsertEnvLine(content: string, key: string, value: string) returns (r: string)
    ensures r == Upsert(content, key, value)
  {
    hide Split, Join, DropNewlines, HasKey, BlankOrComment;
    var lines := Split(content);
    var idx := FirstOf(lines, key);
    var newLine := key + "=" + value;
    if idx < |lines| {
      lines := lines[idx := newLine];
    } else {
      var insertAt := FirstBlankOrComment(lines);
      if insertAt < |lines| {
        lines := lines[..insertAt] + [newLine] + lines[insertAt..];
      } else {
        assert lines + [newLine] == lines[..insertAt] + [newLine] + lines[insertAt..];
        lines := lines + [newLine];
      }
    }
    var kept: seq<string> := [];
    for i := 0 to |lines|
      invariant kept == Collapse(lines[..i])
    {
      assert lines[..i + 1][..i] == lines[..i];
      if !(lines[i] == "" && i > 0 && lines[i - 1] == "") {
        kept := kept + [lines[i]];
      }
    }
    assert lines[..|lines|] == lines;
    r := DropNewlines(Join(kept)) + "\n";
  }

  /** The editor's result as lines: collapsed, and without a leading empty line. */
  function Clean(lines: seq<string>): seq<string> {
    var c := Collapse(lines);
    if c != [] && c[0] == "" then c[1..] else c
  }

  ghost predicate Collapsed(lines: seq<string>) {
    forall i | 0 < i < |lines| :: lines[i] != "" || lines[i - 1] != ""
  }

  lemma {:induction false} CollapseIsCollapsed(lines: seq<string>)
    ensures Collapsed(Collapse(lines))
    ensures lines != [] ==> Collapse(lines) != [] && Collapse(lines)[|Collapse(lines)| - 1] == lines[|lines| - 1]
    ensures forall l | l in Collapse(lines) :: l in lines
    ensures forall l | l in lines :: l == "" || l in Collapse(lines)
    ensures Collapsed(lines) ==> Collapse(lines) == lines
  {
    if lines != [] {
      var n := |lines|;
      assert lines == lines[..n - 1] + [lines[n - 1]];
      CollapseIsCollapsed(lines[..n - 1]);
    }
  }

  lemma DropOneNewline(c: seq<string>)
    requires Collapsed(c) && Lines(c) && exists l | l in c :: l != ""
    ensures DropNewlines(Join(c)) == Join(if c[0] == "" then c[1..] else c)
  {
  }

  lemma EditGivesLines(lines: seq<string>, key: string, value: string)
    requires ValidKey(key) && OneLine(value) && Lines(lines)
    ensures Lines(Edit(lines, key, value)) && NewLine(key, value) in Edit(lines, key, value) && NoNewline(NewLine(key, value))
  {
    hide StartsWith, BlankOrComment;
    var edited := Edit(lines, key, value);
    assert edited[if FirstOf(lines, key) < |lines| then FirstOf(lines, key) else FirstBlankOrComment(lines)] == NewLine(key, value);
  }

  /** The text the editor returns, line by line. */
  lemma UpsertByLines(content: string, key: string, value: string)
    requires ValidKey(key) && OneLine(value)
    ensures var edited := Edit(Split(content), key, value);
            && Clean(edited) != [] && Lines(Clean(edited))
            && Upsert(content, key, value) == Text(Clean(edited))
  {
    hide Split, Edit, Collapse, Join, DropNewlines;
    SplitGivesLines(content);
    EditGivesLines(Split(content), key, value);
    var edited := Edit(Split(content), key, value);
    CollapseIsCollapsed(edited);
    var c, line := Collapse(edited), NewLine(key, value);
    assert line != "" && line in c;
    assert forall l | l in edited :: NoNewline(l);
    assert forall i | 0 <= i < |c| :: c[i] in c && c[i] in edited;
    DropOneNewline(c);
    TextOfJoin(Clean(edited));
  }

  lemma SplitOfUpsert(content: string, key: string, value: string)
    requires ValidKey(key) && OneLine(value)
    ensures Split(Upsert(content, key, value)) == StripAll(Clean(Edit(Split(content), key, value))) + [""]
  {
    UpsertByLines(content, key, value);
    SplitOfText(Clean(Edit(Split(content), key, value)));
  }

  // ---------------------------------------------------------------------------------------------
  // The reader.
  // ---------------------------------------------------------------------------------------------

  /** What a line says of `key`: the rest of the line after `key=`, if `.*$` matches all of it. */
  function ValueIn(line: string, key: string): Option<string> {
    if HasKey(line, key) && OneLine(line[|key| + 1..]) then Some(line[|key| + 1..]) else None
  }

  /** The last line that says anything decides. */
  function LastValue(lines: seq<string>, key: string): Option<string> {
    var n := |lines|;
    if n == 0 then None
    else if ValueIn(lines[n - 1], key).Some? then ValueIn(lines[n - 1], key)
    else LastValue(lines[..n - 1], key)
  }

  function Read(content: string, key: string): Option<string> { LastValue(Split(content), key) }

  function KeyLength(line: string): (n: nat)
    ensures n <= |line| && (forall j | 0 <= j < n :: KeyChar(line[j])) && (n < |line| ==> !KeyChar(line[n]))
  {
    if line == "" || !KeyChar(line[0]) then 0 else 1 + KeyLength(line[1..])
  }

  /** /^([A-Z0-9_]+)=(.*)$/ */
  function Parse(line: string): Option<(string, string)> {
    var n := KeyLength(line);
    if 0 < n < |line| && line[n] == '=' && OneLine(line[n + 1..]) then Some((line[..n], line[n + 1..])) else None
  }

  lemma ParseIsValueIn(line: string, key: string)
    requires ValidKey(key)
    ensures ValueIn(line, key) == if Parse(line).Some? && Parse(line).value.0 == key then Some(Parse(line).value.1) else None
  {
    var n := KeyLength(line);
    assert n < |line| ==> line[..n + 1] == line[..n] + [line[n]];
    if HasKey(line, key) {
      KeyLengthIs(line, key);
    }
  }

  lemma KeyLengthIs(line: string, key: string)
    requires ValidKey(key) && HasKey(line, key)
    ensures KeyLength(line) == |key| < |line| && line[|key|] == '=' && line[..|key|] == key
  {
  }

  /** The map holds, for every key, what the last matching line says. */
  method ReadEnvFile(content: string) returns (out: map<string, string>)
    ensures forall key | ValidKey(key) :: Read(content, key) == if key in out then Some(out[key]) else None
  {
    out := map[];
    var lines := Split(content);
    for i := 0 to |lines|
      invariant forall key | ValidKey(key) :: LastValue(lines[..i], key) == if key in out then Some(out[key]) else None
    {
      assert lines[..i + 1][..i] == lines[..i];
      forall key | ValidKey(key)
        ensures ValueIn(lines[i], key) == if Parse(lines[i]).Some? && Parse(lines[i]).value.0 == key then Some(Parse(lines[i]).value.1) else None
      {
        ParseIsValueIn(lines[i], key);
      }
      hide Parse, ValueIn, ValidKey;
      var m := Parse(lines[i]);
      if m.Some? {
        out := out[m.value.0 := m.value.1];
      }
    }
    assert lines[..|lines|] == lines;
  }

  // ---------------------------------------------------------------------------------------------
  // Reading after editing.
  // ---------------------------------------------------------------------------------------------

  function Or(first: Option<string>, second: Option<string>): Option<string> { if first.Some? then first else second }

  /** What lines say once each has lost the carriage return it may end in, as it does when written and split again. */
  function Shown(lines: seq<string>, key: string): Option<string> {
    if lines == [] then None else Or(ValueIn(StripCr(lines[|lines| - 1]), key), Shown(lines[..|lines| - 1], key))
  }

  lemma {:induction false} ShownOfSum(a: seq<string>, b: seq<string>, key: string)
    ensures Shown(a + b, key) == Or(Shown(b, key), Shown(a, key))
    decreases |b|
  {
    hide ValueIn, StripCr;
    if b == [] {
      assert a + b == a;
    } else {
      assert (a + b)[..|a + b| - 1] == a + b[..|b| - 1];
      ShownOfSum(a, b[..|b| - 1], key);
    }
  }

  lemma ShownOfOne(line: string, key: string)
    ensures Shown([line], key) == ValueIn(StripCr(line), key)
  {
    assert [line][..|[line]| - 1] == [];
  }

  lemma LastValueOfOne(line: string, key: string)
    ensures LastValue([line], key) == ValueIn(line, key)
  {
    assert [line][..|[line]| - 1] == [];
  }

  lemma StripAllOfLast(lines: seq<string>)
    requires lines != []
    ensures var n := |lines| - 1; |StripAll(lines)| == n + 1 && StripAll(lines)[n] == StripCr(lines[n]) && StripAll(lines)[..n] == StripAll(lines[..n])
  {
    hide StripCr;
  }

  lemma {:induction false} ShownIsWritten(lines: seq<string>, key: string)
    ensures LastValue(StripAll(lines) + [""], key) == LastValue(StripAll(lines), key) == Shown(lines, key)
    decreases |lines|
  {
    assert (StripAll(lines) + [""])[..|lines|] == StripAll(lines);
    EmptySaysNothing(key);
    hide ValueIn, StripCr;
    if lines != [] {
      StripAllOfLast(lines);
      hide StripAll;
      ShownIsWritten(lines[..|lines| - 1], key);
    }
  }

  lemma EmptySaysNothing(key: string)
    ensures ValueIn("", key) == None && StripCr("") == "" && !HasKey("", key)
  {
  }

  /** Removing empty lines leaves alone what lines say, how many name a key, and whether any has a stray carriage return. */
  lemma {:induction false} CollapseKeeps(lines: seq<string>, key: string)
    ensures Shown(Collapse(lines), key) == Shown(lines, key) && KeyLines(Collapse(lines), key) == KeyLines(lines, key)
    decreases |lines|
  {
    EmptySaysNothing(key);
    hide ValueIn, StripCr, HasKey;
    if lines != [] {
      var n := |lines| - 1;
      var c := Collapse(lines[..n]);
      CollapseKeeps(lines[..n], key);
      assert (c + [lines[n]])[..|c|] == c && c + [] == c;
    }
  }

  lemma CleanKeeps(lines: seq<string>, key: string)
    ensures Shown(Clean(lines), key) == Shown(lines, key) && KeyLines(Clean(lines), key) == KeyLines(lines, key)
  {
    EmptySaysNothing(key);
    hide ValueIn, StripCr, HasKey;
    CollapseKeeps(lines, key);
    var c := Collapse(lines);
    hide Collapse;
    if c != [] && c[0] == "" {
      assert c == [""] + c[1..];
      ShownOfOne("", key);
      KeyLinesOfOne("", key);
      ShownOfSum([""], c[1..], key);
      KeyLinesOfSum([""], c[1..], key);
    }
  }

  lemma NewLineSays(key: string, value: string, other: string)
    requires ValidKey(key) && ValidKey(other) && OneLine(value)
    ensures StripCr(NewLine(key, value)) == NewLine(key, value) != "" && HasKey(NewLine(key, value), key)
    ensures ValueIn(NewLine(key, value), other) == if other == key then Some(value) else None
  {
    var line := NewLine(key, value);
    assert line[|key| + 1..] == value;
    assert line[|line| - 1] == if value == "" then '=' else value[|value| - 1];
    if HasKey(line, other) {
      SameKey(line, key, other);
    }
  }

  /** A line belongs to one key at most. */
  lemma SameKey(line: string, key: string, other: string)
    requires ValidKey(key) && ValidKey(other) && HasKey(line, key) && HasKey(line, other)
    ensures key == other
  {
    KeyLengthIs(line, key);
    KeyLengthIs(line, other);
  }

  lemma StripKeepsKey(line: string, key: string)
    ensures HasKey(StripCr(line), key) <==> HasKey(line, key)
  {
  }

  /** The lines the edit keeps: those above the new line and those below it. */
  function Above(lines: seq<string>, key: string): seq<string> {
    var i := FirstOf(lines, key);
    if i < |lines| then lines[..i] else lines[..FirstBlankOrComment(lines)]
  }

  function Below(lines: seq<string>, key: string): seq<string> {
    var i := FirstOf(lines, key);
    if i < |lines| then lines[i + 1..] else lines[FirstBlankOrComment(lines)..]
  }

  function Replaced(lines: seq<string>, key: string): seq<string> {
    var i := FirstOf(lines, key);
    if i < |lines| then [lines[i]] else []
  }

  lemma EditInParts(lines: seq<string>, key: string, value: string)
    ensures Edit(lines, key, value) == Above(lines, key) + [NewLine(key, value)] + Below(lines, key)
    ensures lines == Above(lines, key) + Replaced(lines, key) + Below(lines, key)
    ensures forall l | l in Above(lines, key) :: !HasKey(l, key)
    ensures forall l | l in Replaced(lines, key) :: HasKey(l, key)
    ensures Replaced(lines, key) == [] ==> forall l | l in Below(lines, key) :: !HasKey(l, key)
    ensures |Replaced(lines, key)| <= 1
  {
    hide HasKey, BlankOrComment, NewLine;
    var i, at, line := FirstOf(lines, key), FirstBlankOrComment(lines), NewLine(key, value);
    hide FirstOf, FirstBlankOrComment;
    if i < |lines| {
      assert lines[i := line] == lines[..i] + [line] + lines[i + 1..];
      assert lines == lines[..i] + [lines[i]] + lines[i + 1..];
    } else {
      assert lines == lines[..at] + [] + lines[at..];
    }
  }

  lemma {:induction false} NoLineSaysNothing(lines: seq<string>, key: string)
    requires forall l | l in lines :: !HasKey(l, key)
    ensures Shown(lines, key) == None && KeyLines(lines, key) == 0
    decreases |lines|
  {
    if lines != [] {
      var n := |lines| - 1;
      StripKeepsKey(lines[n], key);
      assert ValueIn(StripCr(lines[n]), key) == None;
      assert lines[n] in lines;
      hide HasKey, ValueIn, StripCr;
      NoLineSaysNothing(lines[..n], key);
    }
  }

  /** A replaced line said nothing of another key. */
  lemma ReplacedSays(lines: seq<string>, key: string, other: string)
    requires ValidKey(key) && ValidKey(other) && other != key
    ensures Shown(Replaced(lines, key), other) == None && KeyLines(Replaced(lines, key), other) == 0
  {
    EditInParts(lines, key, "");
    forall l | l in Replaced(lines, key)
      ensures !HasKey(l, other)
    {
      if HasKey(l, other) {
        SameKey(l, key, other);
      }
    }
    NoLineSaysNothing(Replaced(lines, key), other);
  }

  lemma EditShows(lines: seq<string>, key: string, value: string, other: string)
    requires ValidKey(key) && ValidKey(other) && OneLine(value)
    ensures Shown(Edit(lines, key, value), other) == if other == key then Or(Shown(Below(lines, key), key), Some(value)) else Shown(lines, other)
  {
    var above, below, line := Above(lines, key), Below(lines, key), NewLine(key, value);
    EditInParts(lines, key, value);
    NewLineSays(key, value, other);
    ShownOfOne(line, other);
    hide *;
    ShownOfSum(above + [line], below, other);
    ShownOfSum(above, [line], other);
    if other != key {
      ReplacedSays(lines, key, other);
      ShownOfSum(above + Replaced(lines, key), below, other);
      ShownOfSum(above, Replaced(lines, key), other);
      OrIsAssociative(Shown(below, other), None, Shown(above, other));
    } else {
      OrIsAssociative(Shown(below, other), Some(value), Shown(above, other));
    }
  }

  lemma OrIsAssociative(a: Option<string>, b: Option<string>, c: Option<string>)
    ensures Or(a, Or(b, c)) == Or(Or(a, b), c) && Or(a, None) == a == Or(None, a) && (b.Some? ==> Or(b, c) == b)
  {
  }

  /**
   What every key reads as after an edit. The key itself: the written value, unless a line below says otherwise.
   Any other key: what the old lines say, each without the carriage return it may end in.
   */
  lemma ReadAfterUpsert(content: string, key: string, value: string, other: string)
    requires ValidKey(key) && ValidKey(other) && OneLine(value)
    ensures Read(Upsert(content, key, value), other)
            == if other == key then Or(Shown(Below(Split(content), key), key), Some(value)) else Shown(Split(content), other)
  {
    hide Upsert, Split, Edit, Clean, Shown, StripAll, LastValue, Below;
    var edited := Edit(Split(content), key, value);
    SplitOfUpsert(content, key, value);
    ShownIsWritten(Clean(edited), other);
    CleanKeeps(edited, other);
    EditShows(Split(content), key, value, other);
  }

  /** So the written value is read back exactly when no line below the first one of the key contradicts it. */
  lemma ReadBackIff(content: string, key: string, value: string)
    requires ValidKey(key) && OneLine(value)
    ensures Read(Upsert(content, key, value), key) == Some(value) <==> Shown(Below(Split(content), key), key) in {None, Some(value)}
  {
    hide Upsert, Split, Shown, Below;
    ReadAfterUpsert(content, key, value, key);
  }

  function KeyLines(lines: seq<string>, key: string): nat {
    if lines == [] then 0 else KeyLines(lines[..|lines| - 1], key) + if HasKey(lines[|lines| - 1], key) then 1 else 0
  }

  lemma {:induction false} KeyLinesOfSum(a: seq<string>, b: seq<string>, key: string)
    ensures KeyLines(a + b, key) == KeyLines(a, key) + KeyLines(b, key)
    decreases |b|
  {
    hide HasKey;
    if b == [] {
      assert a + b == a;
    } else {
      assert (a + b)[..|a + b| - 1] == a + b[..|b| - 1];
      KeyLinesOfSum(a, b[..|b| - 1], key);
    }
  }

  lemma KeyLinesOfOne(line: string, key: string)
    ensures KeyLines([line], key) == if HasKey(line, key) then 1 else 0
  {
    assert [line][..|[line]| - 1] == [];
  }

  lemma {:induction false} NoKeyLines(lines: seq<string>, key: string)
    requires KeyLines(lines, key) == 0
    ensures forall l | l in lines :: !HasKey(l, key)
    decreases |lines|
  {
    hide HasKey;
    if lines != [] {
      assert lines == lines[..|lines| - 1] + [lines[|lines| - 1]];
      NoKeyLines(lines[..|lines| - 1], key);
    }
  }

  /** One line of the key at most, so none below the first. */
  lemma OneLineNoneBelow(lines: seq<string>, key: string)
    requires KeyLines(lines, key) <= 1
    ensures Shown(Below(lines, key), key) == None
  {
    EditInParts(lines, key, "");
    var above, replaced, below := Above(lines, key), Replaced(lines, key), Below(lines, key);
    hide HasKey, Above, Below, Replaced;
    if replaced != [] {
      KeyLinesOfSum(above + replaced, below, key);
      KeyLinesOfSum(above, replaced, key);
      assert replaced[0] in replaced && replaced == [replaced[0]];
      KeyLinesOfOne(replaced[0], key);
      NoKeyLines(below, key);
    }
    NoLineSaysNothing(below, key);
  }

  /** Some line keeps a carriage return after the split: a doubled one, or one that ends the file. */
  ghost predicate StrayCr(lines: seq<string>) { exists l | l in lines :: StripCr(l) != l }

  lemma PlainLinesStrip(lines: seq<string>)
    requires !StrayCr(lines)
    ensures StripAll(lines) == lines
  {
  }

  lemma {:induction false} PlainLinesShow(lines: seq<string>, key: string)
    requires !StrayCr(lines)
    ensures Shown(lines, key) == LastValue(lines, key)
  {
    PlainLinesStrip(lines);
    ShownIsWritten(lines, key);
  }

  /** In a file with one line a key and plain line ends: read your write, and nothing else moves. */
  lemma ReadYourWrite(content: string, key: string, value: string, other: string)
    requires ValidKey(key) && ValidKey(other) && OneLine(value) && !StrayCr(Split(content)) && KeyLines(Split(content), key) <= 1
    ensures Read(Upsert(content, key, value), other) == if other == key then Some(value) else Read(content, other)
  {
    hide Upsert, Split, StrayCr, KeyLines, Shown, Below, LastValue;
    ReadAfterUpsert(content, key, value, other);
    OneLineNoneBelow(Split(content), key);
    PlainLinesShow(Split(content), other);
  }

  /** Both conditions are needed. A second line of the key hides the write ... */
  lemma SecondLineHidesTheWrite(key: string, first: string, second: string, value: string)
    requires ValidKey(key) && OneLine(first) && OneLine(second) && OneLine(value) && second != value
    ensures Read(Upsert(Text([NewLine(key, first), NewLine(key, second)]), key, value), key) == Some(second)
  {
    var a, b := NewLine(key, first), NewLine(key, second);
    EditGivesLines([], key, first);
    EditGivesLines([], key, second);
    NewLineSays(key, first, key);
    NewLineSays(key, second, key);
    EmptySaysNothing(key);
    hide Text, NewLine, StripCr, HasKey, ValueIn, Split, Upsert, NoNewline;
    SplitOfText([a, b]);
    assert StripAll([a, b]) + [""] == [a, b, ""];
    assert Below([a, b, ""], key) == [b] + [""];
    ShownOfSum([b], [""], key);
    ShownOfOne(b, key);
    ShownOfOne("", key);
    ReadAfterUpsert(Text([a, b]), key, value, key);
  }

  /** ... and a carriage return that ends the file makes a key readable by editing another one. */
  lemma StrayCrShowsAnotherKey(key: string, value: string, other: string, hidden: string)
    requires ValidKey(key) && ValidKey(other) && OneLine(value) && OneLine(hidden) && other != key
    ensures var content := NewLine(other, hidden) + "\r";
            Read(content, other) == None && Read(Upsert(content, key, value), other) == Some(hidden)
  {
    var line := NewLine(other, hidden);
    var content := line + "\r";
    EditGivesLines([], other, hidden);
    NewLineSays(other, hidden, other);
    assert StripCr(content) == line;
    assert ValueIn(content, other) == None by {
      assert content[|other| + 1..] == hidden + "\r" && (hidden + "\r")[|hidden|] == '\r';
    }
    assert NewlineAt(content) == |content| && Split(content) == [content];
    hide ValueIn, StripCr, Split, NewLine, Upsert;
    LastValueOfOne(content, other);
    ShownOfOne(content, other);
    ReadAfterUpsert(content, key, value, other);
  }

  lemma EditKeyLines(lines: seq<string>, key: string, value: string, other: string)
    requires ValidKey(key) && ValidKey(other) && OneLine(value)
    ensures KeyLines(Edit(lines, key, value), other) == if other == key then Max(1, KeyLines(lines, key)) else KeyLines(lines, other)
  {
    var above, below, replaced, line := Above(lines, key), Below(lines, key), Replaced(lines, key), NewLine(key, value);
    EditInParts(lines, key, value);
    NewLineSays(key, value, other);
    if other == key {
      NoLineSaysNothing(above, key);
      if replaced == [] {
        NoLineSaysNothing(below, key);
        assert KeyLines(replaced, key) == 0;
      } else {
        assert replaced[0] in replaced && replaced == [replaced[0]];
        KeyLinesOfOne(replaced[0], key);
      }
    } else {
      ReplacedSays(lines, key, other);
      if HasKey(line, other) {
        SameKey(line, key, other);
      }
    }
    KeyLinesOfOne(line, other);
    hide HasKey, Above, Below, Replaced, KeyLines, Edit;
    KeyLinesOfSum(above + [line], below, other);
    KeyLinesOfSum(above, [line], other);
    KeyLinesOfSum(above + replaced, below, other);
    KeyLinesOfSum(above, replaced, other);
  }

  lemma {:induction false} StripKeepsKeyLines(lines: seq<string>, key: string)
    ensures KeyLines(StripAll(lines), key) == KeyLines(lines, key)
    decreases |lines|
  {
    hide HasKey, StripCr;
    if lines != [] {
      StripAllOfLast(lines);
      StripKeepsKey(lines[|lines| - 1], key);
      StripKeepsKeyLines(lines[..|lines| - 1], key);
    }
  }

  /** The editor adds a line for a new key only, and no stray carriage return. */
  lemma UpsertKeepsShape(content: string, key: string, value: string, other: string)
    requires ValidKey(key) && ValidKey(other) && OneLine(value)
    ensures var before, after := Split(content), Split(Upsert(content, key, value));
            && KeyLines(after, other) == (if other == key then Max(1, KeyLines(before, key)) else KeyLines(before, other))
            && (!StrayCr(before) ==> !StrayCr(after))
  {
    hide *;
    var edited := Edit(Split(content), key, value);
    SplitOfUpsert(content, key, value);
    EditKeyLines(Split(content), key, value, other);
    CleanKeeps(edited, other);
    StripKeepsKeyLines(Clean(edited), other);
    KeyLinesOfSum(StripAll(Clean(edited)), [""], other);
    KeyLinesOfOne("", other);
    EmptySaysNothing(other);
    if !StrayCr(Split(content)) {
      EditIsPlain(Split(content), key, value);
      CleanIsPlain(edited);
    }
  }

  /** Some line the edit does not replace keeps a carriage return. */
  ghost predicate StrayCrOutside(lines: seq<string>, key: string) { StrayCr(Above(lines, key)) || StrayCr(Below(lines, key)) }

  lemma EditKeepsStray(lines: seq<string>, key: string, value: string)
    requires ValidKey(key) && OneLine(value)
    ensures StrayCr(Edit(lines, key, value)) <==> StrayCrOutside(lines, key)
  {
  }

  lemma EditIsPlain(lines: seq<string>, key: string, value: string)
    requires ValidKey(key) && OneLine(value) && !StrayCr(lines)
    ensures !StrayCr(Edit(lines, key, value))
  {
  }

  lemma CleanIsPlain(lines: seq<string>)
    requires !StrayCr(lines)
    ensures !StrayCr(StripAll(Clean(lines)) + [""])
  {
    EmptySaysNothing("");
    hide StripCr;
    CollapseIsCollapsed(lines);
    assert forall l | l in Clean(lines) :: l in Collapse(lines);
    PlainLinesStrip(Clean(lines));
  }

  // ---------------------------------------------------------------------------------------------
  // Editing twice.
  // ---------------------------------------------------------------------------------------------

  ghost predicate FirstIs(lines: seq<string>, key: string, line: string) {
    exists i :: 0 <= i < |lines| && lines[i] == line && forall j | 0 <= j < i :: !HasKey(lines[j], key)
  }

  lemma EditFirst(lines: seq<string>, key: string, value: string)
    ensures FirstIs(Edit(lines, key, value), key, NewLine(key, value))
    ensures FirstIs(lines, key, NewLine(key, value)) ==> Edit(lines, key, value) == lines
  {
    var edited := Edit(lines, key, value);
    var i := FirstOf(lines, key);
    var at := if i < |lines| then i else FirstBlankOrComment(lines);
    assert edited[at] == NewLine(key, value) && forall j | 0 <= j < at :: edited[j] == lines[j];
    if FirstIs(lines, key, NewLine(key, value)) {
      var k :| 0 <= k < |lines| && lines[k] == NewLine(key, value) && forall j | 0 <= j < k :: !HasKey(lines[j], key);
      assert HasKey(lines[k], key) && i == k;
    }
  }

  lemma FirstOfSum(init: seq<string>, last: string, key: string, line: string)
    ensures FirstIs(init, key, line) ==> FirstIs(init + [last], key, line)
    ensures FirstIs(init + [last], key, line) ==> FirstIs(init, key, line) || (last == line && forall l | l in init :: !HasKey(l, key))
    ensures last == line && (forall l | l in init :: !HasKey(l, key)) ==> FirstIs(init + [last], key, line)
  {
    hide HasKey;
    var all := init + [last];
    assert all[|init|] == last && forall i | 0 <= i < |init| :: all[i] == init[i] && init[i] in init;
  }

  lemma {:induction false} CollapseFirst(lines: seq<string>, key: string, line: string)
    requires FirstIs(lines, key, line) && line != ""
    ensures FirstIs(Collapse(lines), key, line)
    decreases |lines|
  {
    assert lines != [];
    hide FirstIs, HasKey;
    var n := |lines| - 1;
    var init, last := lines[..n], lines[n];
    assert lines == init + [last] && Collapse(init) + [] == Collapse(init);
    FirstOfSum(init, last, key, line);
    FirstOfSum(Collapse(init), last, key, line);
    if FirstIs(init, key, line) {
      CollapseFirst(init, key, line);
    } else {
      CollapseIsCollapsed(init);
    }
  }

  lemma WrittenFirst(lines: seq<string>, key: string, line: string)
    requires FirstIs(lines, key, line) && line != "" && StripCr(line) == line
    ensures FirstIs(StripAll(Clean(lines)) + [""], key, line)
  {
    CollapseFirst(lines, key, line);
    var c := Collapse(lines);
    var k :| 0 <= k < |c| && c[k] == line && forall j | 0 <= j < k :: !HasKey(c[j], key);
    var i := if c[0] == "" then k - 1 else k;
    var clean, written := Clean(lines), StripAll(Clean(lines)) + [""];
    assert written[i] == line;
    forall j | 0 <= j < i
      ensures !HasKey(written[j], key)
    {
      StripKeepsKey(clean[j], key);
    }
  }

  function TotalLength(lines: seq<string>): nat {
    if lines == [] then 0 else TotalLength(lines[..|lines| - 1]) + |lines[|lines| - 1]|
  }

  lemma {:induction false} TotalLengthOfSum(a: seq<string>, b: seq<string>)
    ensures TotalLength(a + b) == TotalLength(a) + TotalLength(b)
    decreases |b|
  {
    if b == [] {
      assert a + b == a;
    } else {
      assert (a + b)[..|a + b| - 1] == a + b[..|b| - 1];
      TotalLengthOfSum(a, b[..|b| - 1]);
    }
  }

  lemma {:induction false} CollapseKeepsLength(lines: seq<string>)
    ensures TotalLength(Collapse(lines)) == TotalLength(lines)
    decreases |lines|
  {
    if lines != [] {
      var n := |lines|;
      CollapseKeepsLength(lines[..n - 1]);
      var c := Collapse(lines[..n - 1]);
      assert (c + [lines[n - 1]])[..|c|] == c && c + [] == c;
    }
  }

  lemma CleanKeepsLength(lines: seq<string>)
    ensures TotalLength(Clean(lines)) == TotalLength(lines)
  {
    CollapseKeepsLength(lines);
    var c := Collapse(lines);
    if c != [] && c[0] == "" {
      assert c == [""] + c[1..];
      TotalLengthOfSum([""], c[1..]);
    }
  }

  lemma {:induction false} StripShortens(lines: seq<string>)
    ensures TotalLength(StripAll(lines)) <= TotalLength(lines)
    ensures TotalLength(StripAll(lines)) == TotalLength(lines) ==> !StrayCr(lines)
    decreases |lines|
  {
    if lines != [] {
      var n := |lines|;
      assert StripAll(lines)[..n - 1] == StripAll(lines[..n - 1]);
      assert lines == lines[..n - 1] + [lines[n - 1]];
      StripShortens(lines[..n - 1]);
    }
  }

  lemma {:induction false} TextIsInjective(a: seq<string>, b: seq<string>)
    requires Lines(a) && Lines(b) && Text(a) == Text(b)
    ensures a == b
    decreases |a|
  {
    if a != [] && b != [] {
      var text := Text(a);
      assert text[|a[0]|] == '\n' && text[|b[0]|] == '\n' && NoNewline(a[0]) && NoNewline(b[0]);
      NewlineAtIs(text, |a[0]|);
      NewlineAtIs(text, |b[0]|);
      assert a[0] == text[..|a[0]|] == b[0];
      assert Text(a[1..]) == text[|a[0]| + 1..] == Text(b[1..]);
      TextIsInjective(a[1..], b[1..]);
    }
  }

  /** Cleaning what was written and split again gives the same lines exactly when none changes and the last is empty. */
  lemma CleanAgain(c: seq<string>)
    requires c != [] && c[0] != "" && Collapsed(c)
    ensures Clean(StripAll(c) + [""]) == c <==> !StrayCr(c) && c[|c| - 1] == ""
  {
    var s := StripAll(c) + [""];
    CleanKeepsLength(s);
    TotalLengthOfSum(StripAll(c), [""]);
    StripShortens(c);
    if !StrayCr(c) {
      PlainLinesStrip(c);
      assert s[..|c|] == c;
      CollapseIsCollapsed(c);
      assert Collapse(s) == if c[|c| - 1] == "" then c + [] else c + [""];
    }
  }

  lemma CleanShape(lines: seq<string>)
    requires exists l | l in lines :: l != ""
    ensures var c := Clean(lines);
            && c != [] && c[0] != "" && Collapsed(c) && (c[|c| - 1] == "" <==> lines[|lines| - 1] == "")
            && (StrayCr(c) <==> StrayCr(lines))
  {
    CollapseIsCollapsed(lines);
    var c := Collapse(lines);
    assert c == [c[0]] + c[1..];
    hide Collapse, StripCr;
    assert StripCr("") == "" by { EmptySaysNothing(""); }
    assert StrayCr(Clean(lines)) <==> StrayCr(lines);
  }

  lemma {:induction false} LastLineEmptyIff(content: string)
    ensures var lines := Split(content);
            lines[|lines| - 1] == "" <==> content == "" || content[|content| - 1] == '\n'
    decreases |content|
  {
    var i := NewlineAt(content);
    if i < |content| {
      var rest := content[i + 1..];
      LastLineEmptyIff(rest);
      var first, lines := StripCr(content[..i]), Split(content);
      assert lines == [first] + Split(rest);
      hide Split, StripCr, NewlineAt;
      assert lines[|lines| - 1] == Split(rest)[|Split(rest)| - 1];
      assert content[|content| - 1] == if rest == "" then content[i] else rest[|rest| - 1];
    }
  }

  lemma EditKeepsLast(lines: seq<string>, key: string, value: string)
    requires lines != []
    ensures var edited := Edit(lines, key, value);
            edited != [] && (edited[|edited| - 1] == "" <==> lines[|lines| - 1] == "")
  {
  }

  lemma WrittenLines(content: string, key: string, value: string)
    requires ValidKey(key) && OneLine(value)
    ensures var again := StripAll(Clean(Edit(Split(content), key, value))) + [""];
            Split(Upsert(content, key, value)) == again && Edit(again, key, value) == again
  {
    var lines, line := Split(content), NewLine(key, value);
    SplitOfUpsert(content, key, value);
    NewLineSays(key, value, key);
    assert line != "";
    hide Upsert, Split, Edit, Clean, StripAll, FirstIs;
    EditFirst(lines, key, value);
    WrittenFirst(Edit(lines, key, value), key, line);
    EditFirst(StripAll(Clean(Edit(lines, key, value))) + [""], key, value);
  }

  lemma EditedShape(content: string, key: string, value: string)
    requires ValidKey(key) && OneLine(value)
    ensures var c := Clean(Edit(Split(content), key, value));
            && c != [] && c[0] != "" && Collapsed(c)
            && (c[|c| - 1] == "" <==> content == "" || content[|content| - 1] == '\n')
            && (StrayCr(c) <==> StrayCrOutside(Split(content), key))
  {
    hide *;
    var lines := Split(content);
    var edited := Edit(lines, key, value);
    SplitGivesLines(content);
    LastLineEmptyIff(content);
    EditGivesLines(lines, key, value);
    EditKeepsLast(lines, key, value);
    EditKeepsStray(lines, key, value);
    NewLineSays(key, value, key);
    CleanShape(edited);
  }

  /** Editing twice is the same as editing once exactly for empty or newline-ended text without stray carriage returns. */
  lemma UpsertIsIdempotentIff(content: string, key: string, value: string)
    requires ValidKey(key) && OneLine(value)
    ensures var once := Upsert(content, key, value);
            Upsert(once, key, value) == once <==>
              (content == "" || content[|content| - 1] == '\n') && !StrayCrOutside(Split(content), key)
  {
    hide *;
    var once := Upsert(content, key, value);
    var c := Clean(Edit(Split(content), key, value));
    WrittenLines(content, key, value);
    UpsertByLines(content, key, value);
    UpsertByLines(once, key, value);
    EditedShape(content, key, value);
    CleanAgain(c);
    if Upsert(once, key, value) == once {
      TextIsInjective(Clean(StripAll(c) + [""]), c);
    }
  }
}
