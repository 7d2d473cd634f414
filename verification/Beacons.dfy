/** The signed discovery beacon: src/discovery/Beacon.cpp. */
module Beacons {
  import opened Text
  import opened FailoverDecision
  import opened Decimal
  import Fips180
  import Hmac

  datatype Beacon = Beacon(cluster: string, nodeId: string, mac: string, priority: int, address: string,
                           healthy: bool, state: NodeState, seqNo: int)

  // ---------------------------------------------------------------- printing

  function StateToString(state: NodeState): string {
    match state
    case Backup => "backup"
    case Candidate => "candidate"
    case Master => "master"
    case Fault => "fault"
  }

  function StateFromString(value: string): NodeState {
    if value == "master" then Master
    else if value == "candidate" then Candidate
    else if value == "fault" then Fault
    else Backup
  }

  /** The fields, in the order in which `serializeFields` appends one line for each. */
  function FieldList(b: Beacon): seq<(string, string)> {
    [("v", "1"), ("cluster", b.cluster), ("node", b.nodeId), ("mac", b.mac), ("prio", ToString(b.priority)),
     ("addr", b.address), ("healthy", if b.healthy then "1" else "0"), ("state", StateToString(b.state)),
     ("seq", ToString(b.seqNo))]
  }

  function Line(key: string, value: string): string { key + "=" + value + "\n" }

  function Render(fields: seq<(string, string)>): string {
    if fields == [] then "" else Line(fields[0].0, fields[0].1) + Render(fields[1..])
  }

  function SerializeFields(b: Beacon): string { Render(FieldList(b)) }

  // ---------------------------------------------------------------- parsing

  type Fields = map<string, string>

  /** `emplace`: the first value of a key stays. */
  function Emplace(fields: Fields, key: string, value: string): Fields {
    if key in fields then fields else fields[key := value]
  }

  function AddLine(fields: Fields, line: string): Fields {
    var eq := Find(line, '=', 0);
    if eq == |line| then fields else Emplace(fields, line[..eq], line[eq + 1..])
  }

  /** The fields of `block[pos..]`, added line by line to those found before. */
  function ParseFrom(block: string, pos: nat, fields: Fields): Fields
    requires pos <= |block|
    decreases |block| - pos
  {
    if pos == |block| then fields
    else
      var nl := Find(block, '\n', pos);
      var added := AddLine(fields, block[pos..nl]);
      if nl == |block| then added else ParseFrom(block, nl + 1, added)
  }

  function Get(fields: Fields, key: string): string { if key in fields then fields[key] else "" }

  const INT_MIN := -0x8000_0000
  const INT_MAX := 0x7fff_ffff
  const UINT64_MAX := 0xffff_ffff_ffff_ffff

  function BeaconOf(fields: Fields): Beacon {
    Beacon(Get(fields, "cluster"), Get(fields, "node"), Get(fields, "mac"),
           FromChars(Get(fields, "prio"), true, INT_MIN, INT_MAX, 0), Get(fields, "addr"),
           Get(fields, "healthy") == "1", StateFromString(Get(fields, "state")),
           FromChars(Get(fields, "seq"), false, 0, UINT64_MAX, 0))
  }

  function ParsedFields(block: string): Beacon { BeaconOf(ParseFrom(block, 0, map[])) }

  method ParseFields(block: string) returns (beacon: Beacon)
    ensures beacon == ParsedFields(block)
  {
    hide BeaconOf;
    var fields: Fields := map[];
    var pos := 0;
    while pos < |block|
      invariant pos <= |block|
      invariant ParseFrom(block, pos, fields) == ParseFrom(block, 0, map[])
    {
      var nl := Find(block, '\n', pos);
      var line := block[pos..nl];
      var eq := Find(line, '=', 0);
      if eq < |line| {
        fields := Emplace(fields, line[..eq], line[eq + 1..]);
      }
      if nl == |block| { break; }
      pos := nl + 1;
    }
    beacon := BeaconOf(fields);
  }

  // ---------------------------------------------------------------- parsing by lines

  /** The text between newlines; nothing after a final one counts as an empty line. */
  function Lines(s: string): (lines: seq<string>)
    decreases |s|
  {
    var nl := Find(s, '\n', 0);
    if nl == |s| then [s] else [s[..nl]] + Lines(s[nl + 1..])
  }

  /** The value of `key` in the first line that begins with it and an equals sign. */
  function ValueOfKey(lines: seq<string>, key: string): Option<string> {
    if lines == [] then None
    else if key + "=" <= lines[0] then Some(lines[0][|key| + 1..])
    else ValueOfKey(lines[1..], key)
  }

  lemma AddedLine(fields: Fields, line: string, key: string)
    requires '=' !in key
    ensures var added := AddLine(fields, line);
      && (key in added <==> key in fields || key + "=" <= line)
      && (key in added ==> added[key] == if key in fields then fields[key] else line[|key| + 1..])
  {
    var eq := Find(line, '=', 0);
    if key + "=" <= line {
      assert line[|key|] == '=' && forall j :: 0 <= j < |key| ==> line[j] == key[j];
      assert eq == |key|;
      assert line[..eq] == key;
    }
  }

  lemma FindInRest(s: string, c: char, pos: nat)
    requires pos <= |s|
    ensures Find(s, c, pos) == pos + Find(s[pos..], c, 0)
  {
  }

  lemma LinesOf(s: string)
    ensures var nl := Find(s, '\n', 0); Lines(s) == if nl == |s| then [s] else [s[..nl]] + Lines(s[nl + 1..])
  {
    hide Find;
  }

  lemma LinesStep(block: string, pos: nat)
    requires pos <= |block|
    ensures var nl := Find(block, '\n', pos);
      Lines(block[pos..]) == [block[pos..nl]] + if nl == |block| then [] else Lines(block[nl + 1..])
  {
    hide Find, Lines;
    var nl, rest := Find(block, '\n', pos), block[pos..];
    FindInRest(block, '\n', pos);
    LinesOf(rest);
    assert rest[..nl - pos] == block[pos..nl] && rest[..|rest|] == rest;
    if nl < |block| { assert rest[nl - pos + 1..] == block[nl + 1..]; }
  }

  lemma ValueOfFirstLine(line: string, more: seq<string>, key: string)
    ensures ValueOfKey([line] + more, key) == if key + "=" <= line then Some(line[|key| + 1..]) else ValueOfKey(more, key)
  {
    assert ([line] + more)[1..] == more;
  }

  lemma ParseStep(block: string, pos: nat, fields: Fields)
    requires pos < |block|
    ensures var nl := Find(block, '\n', pos);
      var added := AddLine(fields, block[pos..nl]);
      ParseFrom(block, pos, fields) == if nl == |block| then added else ParseFrom(block, nl + 1, added)
  {
    hide AddLine;
  }

  lemma {:induction false} ParsedByLines(block: string, pos: nat, fields: Fields, key: string)
    requires pos <= |block| && '=' !in key
    ensures var parsed, v := ParseFrom(block, pos, fields), ValueOfKey(Lines(block[pos..]), key);
      && (key in parsed <==> key in fields || v.Some?)
      && (key in parsed ==> parsed[key] == if key in fields then fields[key] else v.value)
    decreases |block| - pos
  {
    hide AddLine, ParseFrom, Lines, ValueOfKey, Find;
    var nl := Find(block, '\n', pos);
    var line := block[pos..nl];
    var more := if nl == |block| then [] else Lines(block[nl + 1..]);
    LinesStep(block, pos);
    ValueOfFirstLine(line, more, key);
    NoLines(key);
    ParseEnd(block, fields);
    if pos < |block| {
      ParseStep(block, pos, fields);
      AddedLine(fields, line, key);
      if nl < |block| { ParsedByLines(block, nl + 1, AddLine(fields, line), key); }
    }
  }

  lemma NoLines(key: string)
    ensures ValueOfKey([], key) == None
  {
  }

  /**
   * What parsing makes of any block at all: each field is the rest of the first line that begins with its name and an
   * equals sign, and empty when there is none. Lines without an equals sign are skipped.
   */
  lemma FieldsAreFirstLines(block: string, key: string)
    requires '=' !in key
    ensures var v := ValueOfKey(Lines(block), key);
      Get(ParseFrom(block, 0, map[]), key) == if v.Some? then v.value else ""
  {
    assert block[0..] == block;
    ParsedByLines(block, 0, map[], key);
  }

  // ---------------------------------------------------------------- parsing undoes printing

  predicate Clean(s: string) { '\n' !in s }

  predicate IsKey(s: string) { '\n' !in s && '=' !in s }

  lemma AddCleanLine(fields: Fields, key: string, value: string)
    requires IsKey(key)
    ensures AddLine(fields, key + "=" + value) == Emplace(fields, key, value)
  {
    var line := key + "=" + value;
    assert line[|key|] == '=';
    assert Find(line, '=', 0) == |key|;
    assert line[..|key|] == key && line[|key| + 1..] == value;
  }

  /** Parsing one printed line consumes exactly that line. */
  lemma ParseOneLine(block: string, pos: nat, key: string, value: string, fields: Fields)
    requires IsKey(key) && Clean(value)
    requires pos <= |block| && Line(key, value) <= block[pos..]
    ensures ParseFrom(block, pos, fields) == ParseFrom(block, pos + |Line(key, value)|, Emplace(fields, key, value))
  {
    var line := key + "=" + value;
    var nl := pos + |line|;
    forall j | pos <= j <= nl ensures block[j] == Line(key, value)[j - pos] {
      assert block[pos..][j - pos] == block[j];
    }
    assert block[nl] == '\n';
    assert block[pos..nl] == line;
    assert Find(block, '\n', pos) == nl;
    AddCleanLine(fields, key, value);
  }

  function EmplaceAll(fields: Fields, list: seq<(string, string)>): Fields
    decreases |list|
  {
    if list == [] then fields else EmplaceAll(Emplace(fields, list[0].0, list[0].1), list[1..])
  }

  predicate CleanList(list: seq<(string, string)>) {
    forall i :: 0 <= i < |list| ==> IsKey(list[i].0) && Clean(list[i].1)
  }

  lemma ParseEnd(block: string, fields: Fields)
    ensures ParseFrom(block, |block|, fields) == fields
  {
  }

  /** Parsing printed lines consumes exactly those lines, whatever comes after them. */
  lemma {:induction false} ParseRendered(block: string, pos: nat, list: seq<(string, string)>, rest: string, fields: Fields)
    requires CleanList(list) && pos <= |block| && block[pos..] == Render(list) + rest
    ensures pos + |Render(list)| <= |block| && block[pos + |Render(list)|..] == rest
    ensures ParseFrom(block, pos, fields) == ParseFrom(block, pos + |Render(list)|, EmplaceAll(fields, list))
    decreases |list|
  {
    hide ParseFrom, Line, Emplace, IsKey, Clean;
    if list == [] {
      assert "" + rest == rest;
    } else {
      var line := Line(list[0].0, list[0].1);
      LineComesFirst(block, pos, line, Render(list[1..]), rest);
      hide Render;
      ParseOneLine(block, pos, list[0].0, list[0].1, fields);
      ParseRendered(block, pos + |line|, list[1..], rest, Emplace(fields, list[0].0, list[0].1));
    }
  }

  lemma LineComesFirst(block: string, pos: nat, line: string, more: string, rest: string)
    requires pos <= |block| && block[pos..] == line + more + rest
    ensures pos + |line| <= |block| && line <= block[pos..] && block[pos + |line|..] == more + rest
  {
    assert block[pos..] == line + (more + rest);
    assert block[pos + |line|..] == block[pos..][|line|..];
  }

  predicate DistinctKeys(list: seq<(string, string)>) {
    forall i, j :: 0 <= i < j < |list| ==> list[i].0 != list[j].0
  }

  lemma {:induction false} EmplaceAllKeeps(fields: Fields, list: seq<(string, string)>, key: string)
    requires key in fields
    decreases |list|
    ensures key in EmplaceAll(fields, list) && EmplaceAll(fields, list)[key] == fields[key]
  {
    if list != [] { EmplaceAllKeeps(Emplace(fields, list[0].0, list[0].1), list[1..], key); }
  }

  lemma {:induction false} EmplaceAllFinds(fields: Fields, list: seq<(string, string)>, i: nat)
    requires i < |list| && DistinctKeys(list) && forall f <- list :: f.0 !in fields
    ensures Get(EmplaceAll(fields, list), list[i].0) == list[i].1
    decreases |list|
  {
    var next := Emplace(fields, list[0].0, list[0].1);
    if i == 0 {
      EmplaceAllKeeps(next, list[1..], list[0].0);
    } else {
      forall f <- list[1..] ensures f.0 !in next {
        var j :| 0 <= j < |list[1..]| && list[1..][j] == f;
        assert list[j + 1] == f;
      }
      EmplaceAllFinds(next, list[1..], i - 1);
    }
  }

  /** The priority is an int and the sequence number 64 bits wide, as the fields of the source are. */
  predicate Representable(b: Beacon) { INT_MIN <= b.priority <= INT_MAX && 0 <= b.seqNo <= UINT64_MAX }

  predicate WellFormed(b: Beacon) {
    Representable(b) && Clean(b.cluster) && Clean(b.nodeId) && Clean(b.mac) && Clean(b.address)
  }

  lemma DecimalIsClean(n: int)
    ensures Clean(ToString(n))
  {
    var digits := Digits(if n < 0 then -n else n);
    assert forall c <- digits :: IsDigit(c);
  }

  lemma KeysAreKeys(i: nat, b: Beacon)
    requires i < 9
    ensures IsKey(FieldList(b)[i].0)
  {
    var key := FieldList(b)[i].0;
    assert key in ["v", "cluster", "node", "mac", "prio", "addr", "healthy", "state", "seq"];
  }

  /** Only the four strings of a beacon can hold a newline. */
  lemma FieldIsClean(b: Beacon, i: nat)
    requires i < 9
    requires (i == 1 ==> Clean(b.cluster)) && (i == 2 ==> Clean(b.nodeId)) && (i == 3 ==> Clean(b.mac)) && (i == 5 ==> Clean(b.address))
    ensures IsKey(FieldList(b)[i].0) && Clean(FieldList(b)[i].1)
  {
    hide IsKey, ToString;
    DecimalIsClean(b.priority);
    DecimalIsClean(b.seqNo);
    KeysAreKeys(i, b);
  }

  lemma FieldKeysAreDistinct(b: Beacon)
    ensures DistinctKeys(FieldList(b))
  {
    var l := FieldList(b);
    assert l[1].0[0] == 'c' && l[6].0[0] == 'h';
    assert l[2].0[0] == 'n' && l[4].0[0] == 'p' && l[5].0[0] == 'a';
    assert l[3].0[0] == 'm' && l[8].0[0] == 's';
    assert |l[0].0| == 1 && |l[1].0| == 7 && |l[2].0| == 4 && |l[3].0| == 3 && |l[4].0| == 4;
    assert |l[5].0| == 4 && |l[6].0| == 7 && |l[7].0| == 5 && |l[8].0| == 3;
  }

  /** The parsed fields hold every value under its key. */
  lemma ParsedFieldsHoldValues(b: Beacon, i: nat)
    requires WellFormed(b) && i < 9
    ensures Get(ParseFrom(SerializeFields(b), 0, map[]), FieldList(b)[i].0) == FieldList(b)[i].1
  {
    hide ParseFrom, Render, IsKey, Clean, EmplaceAll, FieldList, WellFormed, Get;
    var l, block := FieldList(b), SerializeFields(b);
    NineCleanFields(b);
    FieldKeysAreDistinct(b);
    assert block[0..] == Render(l) + "";
    ParseRendered(block, 0, l, "", map[]);
    ParseEnd(block, EmplaceAll(map[], l));
    EmplaceAllFinds(map[], l, i);
  }

  lemma NineCleanFields(b: Beacon)
    requires WellFormed(b)
    ensures |FieldList(b)| == 9 && CleanList(FieldList(b))
  {
    hide IsKey, Clean, ToString;
    forall i | 0 <= i < 9 ensures IsKey(FieldList(b)[i].0) && Clean(FieldList(b)[i].1) { FieldIsClean(b, i); }
  }

  lemma ParseWellFormed(b: Beacon)
    requires WellFormed(b)
    ensures ParsedFields(SerializeFields(b)) == b
  {
    hide ParseFrom, SerializeFields, FromChars, ToString, StateToString, StateFromString, Get, Clean;
    forall i | 0 <= i < 9 ensures Get(ParseFrom(SerializeFields(b), 0, map[]), FieldList(b)[i].0) == FieldList(b)[i].1 {
      ParsedFieldsHoldValues(b, i);
    }
    var fields, l := ParseFrom(SerializeFields(b), 0, map[]), FieldList(b);
    assert Get(fields, l[1].0) == b.cluster && Get(fields, l[2].0) == b.nodeId && Get(fields, l[3].0) == b.mac;
    assert Get(fields, l[4].0) == ToString(b.priority) && Get(fields, l[5].0) == b.address;
    assert Get(fields, l[6].0) == l[6].1 && Get(fields, l[7].0) == StateToString(b.state) && Get(fields, l[8].0) == ToString(b.seqNo);
    FromCharsUndoesToString(b.priority, true, INT_MIN, INT_MAX, 0);
    FromCharsUndoesToString(b.seqNo, false, 0, UINT64_MAX, 0);
    StateRoundTrip(b.state);
  }

  lemma StateRoundTrip(state: NodeState)
    ensures StateFromString(StateToString(state)) == state
    ensures forall value :: value !in ["backup", "candidate", "master", "fault"] ==> StateFromString(value) == Backup
  {
    assert "backup"[0] != "master"[0] && "candidate"[0] != "master"[0] && "fault"[0] != "master"[0];
    assert "backup"[0] != "candidate"[0] && "fault"[0] != "candidate"[0] && "backup"[0] != "fault"[0];
  }

  lemma {:induction false} ParseKeeps(block: string, pos: nat, fields: Fields, key: string)
    requires pos <= |block| && key in fields
    ensures key in ParseFrom(block, pos, fields) && ParseFrom(block, pos, fields)[key] == fields[key]
    decreases |block| - pos
  {
    if pos < |block| {
      var nl := Find(block, '\n', pos);
      if nl < |block| { ParseKeeps(block, nl + 1, AddLine(fields, block[pos..nl]), key); }
    }
  }

  /** A value with a newline is cut off there, and nothing that follows can mend it. */
  lemma ParseCutsValue(block: string, pos: nat, key: string, value: string, fields: Fields)
    requires IsKey(key) && !Clean(value) && key !in fields
    requires pos <= |block| && Line(key, value) <= block[pos..]
    ensures |Get(ParseFrom(block, pos, fields), key)| < |value|
  {
    hide IsKey, ParseFrom;
    var n := Find(value, '\n', 0);
    assert n < |value| by { var i :| 0 <= i < |value| && value[i] == '\n'; }
    var line := Line(key, value);
    var nl := pos + |key| + 1 + n;
    forall j | pos <= j < pos + |line| ensures block[j] == line[j - pos] { assert block[pos..][j - pos] == block[j]; }
    NoNewlineIn(key);
    assert forall j :: pos <= j < nl ==> block[j] != '\n';
    assert block[nl] == '\n' && Find(block, '\n', pos) == nl;
    assert block[pos..nl] == key + "=" + value[..n];
    AddCleanLine(fields, key, value[..n]);
    ParseNextLine(block, pos, nl, fields);
    ParseKeeps(block, nl + 1, Emplace(fields, key, value[..n]), key);
  }

  lemma NoNewlineIn(key: string)
    requires IsKey(key)
    ensures forall i :: 0 <= i < |key| ==> key[i] != '\n'
  {
  }

  lemma ParseNextLine(block: string, pos: nat, nl: nat, fields: Fields)
    requires pos <= nl < |block| && Find(block, '\n', pos) == nl
    ensures ParseFrom(block, pos, fields) == ParseFrom(block, nl + 1, AddLine(fields, block[pos..nl]))
  {
    hide AddLine;
  }

  lemma {:induction false} EmplaceAllAddsOnly(fields: Fields, list: seq<(string, string)>, key: string)
    requires key !in fields && forall i :: 0 <= i < |list| ==> list[i].0 != key
    ensures key !in EmplaceAll(fields, list)
    decreases |list|
  {
    if list != [] { EmplaceAllAddsOnly(Emplace(fields, list[0].0, list[0].1), list[1..], key); }
  }

  lemma {:induction false} RenderAt(list: seq<(string, string)>, i: nat)
    requires i < |list|
    ensures Render(list) == Render(list[..i]) + (Line(list[i].0, list[i].1) + Render(list[i + 1..]))
  {
    hide Line;
    if i == 0 {
      assert Render(list[..0]) == "";
    } else {
      var front, rest := list[..i], Line(list[i].0, list[i].1) + Render(list[i + 1..]);
      RenderAt(list[1..], i - 1);
      assert list[1..][..i - 1] == front[1..] && list[1..][i - 1] == list[i] && list[1..][i..] == list[i + 1..];
      RenderStep(list);
      RenderStep(front);
      hide Render;
      assert Line(list[0].0, list[0].1) + (Render(front[1..]) + rest) == Line(list[0].0, list[0].1) + Render(front[1..]) + rest;
    }
  }

  lemma RenderStep(list: seq<(string, string)>)
    requires list != []
    ensures Render(list) == Line(list[0].0, list[0].1) + Render(list[1..])
  {
  }

  /** The first field with a newline in it does not come back. */
  lemma FirstUncleanIsCut(list: seq<(string, string)>, i: nat)
    requires i < |list| && DistinctKeys(list) && CleanList(list[..i]) && IsKey(list[i].0) && !Clean(list[i].1)
    ensures |Get(ParseFrom(Render(list), 0, map[]), list[i].0)| < |list[i].1|
  {
    hide ParseFrom, Line, IsKey, Clean, Emplace;
    var block, front := Render(list), list[..i];
    RenderAt(list, i);
    var rest := Line(list[i].0, list[i].1) + Render(list[i + 1..]);
    assert block[0..] == Render(front) + rest;
    ParseRendered(block, 0, front, rest, map[]);
    EmplaceAllAddsOnly(map[], front, list[i].0);
    ParseCutsValue(block, |Render(front)|, list[i].0, list[i].1, EmplaceAll(map[], front));
  }

  /** A beacon with a newline in one of its strings comes back with another string. */
  lemma UncleanIsLost(b: Beacon)
    requires !Clean(b.cluster) || !Clean(b.nodeId) || !Clean(b.mac) || !Clean(b.address)
    ensures var p := ParsedFields(SerializeFields(b));
      p.cluster != b.cluster || p.nodeId != b.nodeId || p.mac != b.mac || p.address != b.address
  {
    hide ParseFrom, IsKey, Clean;
    var l := FieldList(b);
    var i := if !Clean(b.cluster) then 1 else if !Clean(b.nodeId) then 2 else if !Clean(b.mac) then 3 else 5;
    forall j | 0 <= j < i ensures IsKey(l[j].0) && Clean(l[j].1) { FieldIsClean(b, j); }
    KeysAreKeys(i, b);
    FieldKeysAreDistinct(b);
    hide DistinctKeys, FromChars;
    FirstUncleanIsCut(l, i);
  }

  /** Parsing the field block gives the beacon back exactly when none of its strings holds a newline. */
  lemma ParseUndoesSerialize(b: Beacon)
    requires Representable(b)
    ensures ParsedFields(SerializeFields(b)) == b <==> WellFormed(b)
  {
    hide ParsedFields, SerializeFields;
    if WellFormed(b) { ParseWellFormed(b); } else { UncleanIsLost(b); }
  }

  /** So the signed block determines the beacon. */
  lemma SerializeIsInjective(a: Beacon, b: Beacon)
    requires WellFormed(a) && WellFormed(b) && SerializeFields(a) == SerializeFields(b)
    ensures a == b
  {
    ParseUndoesSerialize(a);
    ParseUndoesSerialize(b);
  }

  /** The field block, written out. */
  lemma SerializedText(b: Beacon)
    ensures SerializeFields(b) ==
      "v=1\n" + (("cluster=" + b.cluster + "\n") + (("node=" + b.nodeId + "\n") + (("mac=" + b.mac + "\n")
      + (("prio=" + ToString(b.priority) + "\n") + (("addr=" + b.address + "\n")
      + (("healthy=" + (if b.healthy then "1" else "0") + "\n")
      + (("state=" + (match b.state
                      case Backup => "backup" case Candidate => "candidate" case Master => "master" case Fault => "fault") + "\n")
      + ("seq=" + ToString(b.seqNo) + "\n"))))))))
  {
    hide ToString, Render, Line;
    NineLines(FieldList(b));
    LineTexts();
  }

  lemma LineTexts()
    ensures Line("v", "1") == "v=1\n"
    ensures forall v :: Line("cluster", v) == "cluster=" + v + "\n" && Line("node", v) == "node=" + v + "\n"
    ensures forall v :: Line("mac", v) == "mac=" + v + "\n" && Line("prio", v) == "prio=" + v + "\n"
    ensures forall v :: Line("addr", v) == "addr=" + v + "\n" && Line("healthy", v) == "healthy=" + v + "\n"
    ensures forall v :: Line("state", v) == "state=" + v + "\n" && Line("seq", v) == "seq=" + v + "\n"
  {
    assert "cluster" + "=" == "cluster=" && "node" + "=" == "node=" && "mac" + "=" == "mac=" && "prio" + "=" == "prio=";
    assert "addr" + "=" == "addr=" && "healthy" + "=" == "healthy=" && "state" + "=" == "state=" && "seq" + "=" == "seq=";
  }

  lemma NineLines(l: seq<(string, string)>)
    requires |l| == 9
    ensures Render(l) == Line(l[0].0, l[0].1) + (Line(l[1].0, l[1].1) + (Line(l[2].0, l[2].1) + (Line(l[3].0, l[3].1)
      + (Line(l[4].0, l[4].1) + (Line(l[5].0, l[5].1) + (Line(l[6].0, l[6].1) + (Line(l[7].0, l[7].1) + Line(l[8].0, l[8].1))))))))
  {
    hide Line, Render;
    forall i | 0 <= i < 9 ensures Render(l[i..]) == Line(l[i].0, l[i].1) + Render(l[i + 1..]) {
      RenderStep(l[i..]);
      assert l[i..][1..] == l[i + 1..];
    }
    RenderNothing();
    assert l[0..] == l && l[9..] == [];
    assert Line(l[8].0, l[8].1) + "" == Line(l[8].0, l[8].1);
  }

  lemma RenderNothing()
    ensures Render([]) == ""
  {
  }

  // ---------------------------------------------------------------- signing and verifying

  function BytesOf(s: string): (bytes: seq<Fips180.Byte>)
    ensures |bytes| == |s|
  {
    seq(|s|, i requires 0 <= i < |s| => Fips180.LowByte(s[i] as int))
  }

  /** `hmacSha256Hex(secret, block)`. */
  function Signature(secret: string, block: string): (hex: string)
    ensures |hex| == 64 && forall c <- hex :: Hmac.IsHexDigit(c)
  {
    Hmac.HmacHex(BytesOf(secret), BytesOf(block))
  }

  function SignBeacon(b: Beacon, secret: string): string {
    SerializeFields(b) + "sig=" + Signature(secret, SerializeFields(b)) + "\n"
  }

  datatype Rejection = MissingSignature | SignatureMismatch | UnsupportedVersion | ClusterMismatch | NoIdentity

  datatype VerifyResult = Verified(beacon: Beacon) | Rejected(why: Rejection)

  const SIG_DELIM: string := "\nsig="

  /** `rfind`: the last occurrence of `pattern` at or before `i`; -1 when there is none. */
  function RFind(s: string, pattern: string, i: int): (r: int)
    requires -1 <= i
    ensures r == -1 || OccursAt(s, pattern, r)
    ensures -1 <= r <= i && forall j :: r < j <= i ==> !OccursAt(s, pattern, j)
    decreases i + 1
  {
    if i < 0 then -1 else if OccursAt(s, pattern, i) then i else RFind(s, pattern, i - 1)
  }

  function LastDelim(wire: string): (d: int)
    ensures d == -1 || OccursAt(wire, SIG_DELIM, d)
  {
    RFind(wire, SIG_DELIM, |wire|)
  }

  function DropFinalNewline(s: string): string {
    if s != "" && s[|s| - 1] == '\n' then s[..|s| - 1] else s
  }

  predicate VersionMatches(block: string) { "v=1\n" <= block }

  function CheckBeacon(b: Beacon, expectedCluster: string): VerifyResult {
    if b.cluster != expectedCluster then Rejected(ClusterMismatch)
    else if b.mac == "" && b.nodeId == "" then Rejected(NoIdentity)
    else Verified(b)
  }

  function VerifyParts(block: string, sigLine: string, secret: string, expectedCluster: string): VerifyResult {
    if !Hmac.FoldedEqual(BytesOf(Signature(secret, block)), BytesOf(sigLine)) then Rejected(SignatureMismatch)
    else if !VersionMatches(block) then Rejected(UnsupportedVersion)
    else CheckBeacon(ParsedFields(block), expectedCluster)
  }

  function Verify(wire: string, secret: string, expectedCluster: string): VerifyResult {
    var delim := LastDelim(wire);
    if delim < 0 then Rejected(MissingSignature)
    else VerifyParts(wire[..delim + 1], DropFinalNewline(wire[delim + 5..]), secret, expectedCluster)
  }

  method VerifySignedBeacon(wire: string, secret: string, expectedCluster: string) returns (result: VerifyResult)
    ensures result == Verify(wire, secret, expectedCluster)
  {
    hide Hmac.HmacHex, Hmac.FoldedEqual, BytesOf, ParsedFields, VersionMatches, LastDelim;
    var delim := LastDelim(wire);
    if delim < 0 {
      return Rejected(MissingSignature);
    }
    var block := wire[..delim + 1];
    var sigLine := wire[delim + 1..];
    sigLine := sigLine[4..];
    assert sigLine == wire[delim + 5..];
    if sigLine != "" && sigLine[|sigLine| - 1] == '\n' {
      sigLine := sigLine[..|sigLine| - 1];
    }

    var expected := Hmac.HmacSha256Hex(BytesOf(secret), BytesOf(block));
    var equal := Hmac.ConstantTimeEquals(BytesOf(expected), BytesOf(sigLine));
    if !equal {
      return Rejected(SignatureMismatch);
    }
    if !VersionMatches(block) {
      return Rejected(UnsupportedVersion);
    }
    var beacon := ParseFields(block);
    if beacon.cluster != expectedCluster {
      return Rejected(ClusterMismatch);
    }
    if beacon.mac == "" && beacon.nodeId == "" {
      return Rejected(NoIdentity);
    }
    return Verified(beacon);
  }

  /** `wire` is `block`, which ends in a newline, followed by its signature line (final newline optional). */
  predicate IsSigned(wire: string, block: string, secret: string) {
    && block != "" && block[|block| - 1] == '\n'
    && (wire == block + "sig=" + Signature(secret, block) || wire == block + "sig=" + Signature(secret, block) + "\n")
  }

  /** The text from the last newline of the block on holds one delimiter, at its start. */
  lemma DelimiterIsLast(wire: string, at: nat, sig: string)
    requires |sig| == 64 && (forall c <- sig :: Hmac.IsHexDigit(c)) && at <= |wire|
    requires wire[at..] == "\nsig=" + sig || wire[at..] == "\nsig=" + sig + "\n"
    ensures LastDelim(wire) == at
  {
    hide Hmac.IsHexDigit;
    var text := "\nsig=" + sig;
    OneNewline(sig);
    forall j | at < j <= |wire| ensures !OccursAt(wire, SIG_DELIM, j) {
      OccurrenceIsNewline(wire, j);
      if j < at + 69 { assert wire[j] == wire[at..][j - at] == text[j - at]; }
    }
    assert OccursAt(wire, SIG_DELIM, at) by { assert wire[at..at + 5] == wire[at..][..5]; }
  }

  lemma SignatureEndsInHex(sig: string)
    requires |sig| == 64 && forall c <- sig :: Hmac.IsHexDigit(c)
    ensures DropFinalNewline(sig) == sig && DropFinalNewline(sig + "\n") == sig
  {
    assert sig[63] in sig;
  }

  /** The delimiter before the signature is the last one, whatever the fields contain. */
  lemma SignatureIsFound(wire: string, block: string, secret: string)
    requires IsSigned(wire, block, secret)
    ensures var d := LastDelim(wire);
      d >= 0 && d + 5 <= |wire| && wire[..d + 1] == block && DropFinalNewline(wire[d + 5..]) == Signature(secret, block)
  {
    hide Signature, IsSigned, DropFinalNewline, LastDelim;
    var sig, at := Signature(secret, block), |block| - 1;
    SignedText(wire, block, secret);
    DelimiterIsLast(wire, at, sig);
    SignatureEndsInHex(sig);
    assert wire[at + 5..] == wire[at..][5..];
    assert ("\nsig=" + sig)[5..] == sig && ("\nsig=" + sig + "\n")[5..] == sig + "\n";
  }

  lemma OneNewline(sig: string)
    requires forall c <- sig :: Hmac.IsHexDigit(c)
    ensures var text := "\nsig=" + sig; forall k :: 1 <= k < |text| ==> text[k] != '\n'
  {
    var text := "\nsig=" + sig;
    forall k | 1 <= k < |text| ensures text[k] != '\n' {
      if k >= 5 { assert text[k] == sig[k - 5] && sig[k - 5] in sig; }
    }
  }

  lemma OccurrenceIsNewline(s: string, j: nat)
    ensures OccursAt(s, SIG_DELIM, j) ==> j + 5 <= |s| && s[j] == '\n'
  {
    if OccursAt(s, SIG_DELIM, j) { assert s[j..j + 5][0] == s[j]; }
  }

  lemma SignedText(wire: string, block: string, secret: string)
    requires IsSigned(wire, block, secret)
    ensures block != "" && |block| <= |wire| && wire[..|block|] == block
    ensures var text := "\nsig=" + Signature(secret, block); wire[|block| - 1..] in [text, text + "\n"]
  {
    hide Signature;
    var text := "\nsig=" + Signature(secret, block);
    var front := block[..|block| - 1];
    assert block == front + "\n";
    if wire == block + "sig=" + Signature(secret, block) {
      assert wire == front + text;
    } else {
      assert wire == front + (text + "\n");
    }
  }

  predicate IsByteString(s: string) { forall i :: 0 <= i < |s| ==> s[i] as int < 256 }

  lemma ByteDeterminesChar(a: char, b: char)
    requires a as int < 256 && b as int < 256 && Fips180.LowByte(a as int) == Fips180.LowByte(b as int)
    ensures a == b
  {
    hide Fips180.AsByte;
  }

  lemma BytesDetermineString(a: string, b: string)
    requires IsByteString(a) && IsByteString(b) && BytesOf(a) == BytesOf(b)
    ensures a == b
  {
    hide Fips180.LowByte;
    assert |a| == |b|;
    forall i | 0 <= i < |a| ensures a[i] == b[i] {
      assert BytesOf(a)[i] == BytesOf(b)[i];
      ByteDeterminesChar(a[i], b[i]);
    }
  }

  lemma SignatureComparison(expected: string, sigLine: string)
    requires |expected| == 64 && (forall c <- expected :: Hmac.IsHexDigit(c))
    requires IsByteString(sigLine) && |sigLine| < 0x1_0000_0000
    ensures Hmac.FoldedEqual(BytesOf(expected), BytesOf(sigLine)) <==> expected == sigLine
  {
    Hmac.FoldedEqualIsEquality(BytesOf(expected), BytesOf(sigLine));
    forall i | 0 <= i < 64 ensures expected[i] as int < 256 { assert expected[i] in expected; }
    if BytesOf(expected) == BytesOf(sigLine) { BytesDetermineString(expected, sigLine); }
  }

  lemma EqualStringsCompareEqual(s: string)
    ensures Hmac.FoldedEqual(BytesOf(s), BytesOf(s))
  {
  }

  /** A correctly signed block of this version and cluster that names a node. */
  predicate Acceptable(wire: string, block: string, secret: string, cluster: string, b: Beacon) {
    && IsSigned(wire, block, secret) && "v=1\n" <= block
    && b == ParsedFields(block) && b.cluster == cluster && (b.mac != "" || b.nodeId != "")
  }

  lemma AcceptableIsVerified(wire: string, block: string, secret: string, cluster: string, b: Beacon)
    requires Acceptable(wire, block, secret, cluster, b)
    ensures Verify(wire, secret, cluster) == Verified(b)
  {
    hide Signature, ParsedFields, BytesOf, Hmac.FoldedEqual, LastDelim, DropFinalNewline, IsSigned;
    SignatureIsFound(wire, block, secret);
    EqualStringsCompareEqual(Signature(secret, block));
  }

  lemma {:induction false} RFindNothing(s: string, pattern: string, i: int)
    requires -1 <= i && RFind(s, pattern, i) == -1
    ensures forall j :: 0 <= j <= i ==> !OccursAt(s, pattern, j)
  {
  }

  /** Without a signature line the signature is missing, and with a wrong one it mismatches, whatever else is wrong. */
  lemma UnsignedIsRejected(wire: string, secret: string, cluster: string)
    requires IsByteString(wire) && |wire| < 0x1_0000_0000
    ensures Verify(wire, secret, cluster) == Rejected(MissingSignature) <==> forall i :: !OccursAt(wire, "\nsig=", i)
    ensures Verify(wire, secret, cluster) == Rejected(SignatureMismatch) <==>
      (exists i :: OccursAt(wire, "\nsig=", i)) && forall block :: !IsSigned(wire, block, secret)
  {
    hide Signature, ParsedFields, BytesOf, Hmac.FoldedEqual, RFind, IsSigned, DropFinalNewline, VersionMatches;
    var delim := LastDelim(wire);
    if delim < 0 {
      RFindNothing(wire, SIG_DELIM, |wire|);
    } else {
      assert OccursAt(wire, "\nsig=", delim);
      DelimiterDecides(wire, delim, secret);
    }
  }

  lemma DelimiterDecides(wire: string, delim: nat, secret: string)
    requires IsByteString(wire) && |wire| < 0x1_0000_0000 && delim == LastDelim(wire)
    ensures delim + 5 <= |wire|
    ensures var block, sigLine := wire[..delim + 1], DropFinalNewline(wire[delim + 5..]);
      Hmac.FoldedEqual(BytesOf(Signature(secret, block)), BytesOf(sigLine)) <==> exists b :: IsSigned(wire, b, secret)
  {
    hide Signature, BytesOf, Hmac.FoldedEqual, LastDelim;
    var block, rest := wire[..delim + 1], wire[delim + 5..];
    SplitAtDelim(wire, delim);
    assert IsByteString(DropFinalNewline(rest));
    SignatureComparison(Signature(secret, block), DropFinalNewline(rest));
    assert rest == DropFinalNewline(rest) || rest == DropFinalNewline(rest) + "\n";
    if Signature(secret, block) == DropFinalNewline(rest) {
      assert IsSigned(wire, block, secret);
    }
    hide DropFinalNewline;
    forall b | IsSigned(wire, b, secret) ensures Signature(secret, block) == DropFinalNewline(rest) {
      SignatureIsFound(wire, b, secret);
    }
  }

  /** A correctly signed block of another version is refused as that, whatever else it holds. */
  lemma OtherVersionIsRejected(wire: string, block: string, secret: string, cluster: string)
    requires IsSigned(wire, block, secret) && !("v=1\n" <= block)
    ensures Verify(wire, secret, cluster) == Rejected(UnsupportedVersion)
  {
    hide Signature, ParsedFields, BytesOf, Hmac.FoldedEqual, LastDelim, DropFinalNewline, IsSigned;
    SignatureIsFound(wire, block, secret);
    EqualStringsCompareEqual(Signature(secret, block));
  }

  lemma SplitAtDelim(wire: string, delim: nat)
    requires OccursAt(wire, SIG_DELIM, delim)
    ensures var block, rest := wire[..delim + 1], wire[delim + 5..];
      wire == block + "sig=" + rest && block[|block| - 1] == '\n'
  {
    assert wire[delim + 1..delim + 5] == wire[delim..delim + 5][1..] == "sig=";
    assert wire[delim..delim + 5][0] == '\n';
  }

  lemma VerifiedIsAcceptable(wire: string, secret: string, cluster: string, b: Beacon)
    requires IsByteString(wire) && |wire| < 0x1_0000_0000 && Verify(wire, secret, cluster) == Verified(b)
    ensures exists block :: Acceptable(wire, block, secret, cluster, b)
  {
    hide Signature, ParsedFields, BytesOf, Hmac.FoldedEqual, LastDelim;
    var delim := LastDelim(wire);
    var block, rest := wire[..delim + 1], wire[delim + 5..];
    SplitAtDelim(wire, delim);
    assert IsByteString(DropFinalNewline(rest));
    SignatureComparison(Signature(secret, block), DropFinalNewline(rest));
    assert rest == DropFinalNewline(rest) || rest == DropFinalNewline(rest) + "\n";
    assert Acceptable(wire, block, secret, cluster, b);
  }

  /** Exactly what is accepted. */
  lemma VerifiedIffAcceptable(wire: string, secret: string, cluster: string, b: Beacon)
    requires IsByteString(wire) && |wire| < 0x1_0000_0000
    ensures Verify(wire, secret, cluster) == Verified(b) <==> exists block :: Acceptable(wire, block, secret, cluster, b)
  {
    hide Verify, Acceptable;
    if block :| Acceptable(wire, block, secret, cluster, b) { AcceptableIsVerified(wire, block, secret, cluster, b); }
    if Verify(wire, secret, cluster) == Verified(b) { VerifiedIsAcceptable(wire, secret, cluster, b); }
  }

  /** A signed beacon always gets as far as the checks on its fields. */
  lemma SignedBeaconIsChecked(b: Beacon, secret: string, cluster: string)
    ensures Verify(SignBeacon(b, secret), secret, cluster) == CheckBeacon(ParsedFields(SerializeFields(b)), cluster)
  {
    hide Signature, Hmac.FoldedEqual, BytesOf, LastDelim, DropFinalNewline, VersionMatches, SerializeFields,
         ParsedFields, CheckBeacon;
    var block := SerializeFields(b);
    BlockShape(b);
    SignatureIsFound(SignBeacon(b, secret), block, secret);
    EqualStringsCompareEqual(Signature(secret, block));
  }

  /**
   * What a node signs, every node of its cluster that holds the secret reads back unchanged, exactly when
   * its strings hold no newline and it has an identity; every other cluster rejects it then.
   */
  lemma BeaconRoundTrip(b: Beacon, secret: string)
    requires Representable(b)
    ensures Verify(SignBeacon(b, secret), secret, b.cluster) == Verified(b) <==> WellFormed(b) && (b.mac != "" || b.nodeId != "")
    ensures WellFormed(b) ==>
              forall other :: other != b.cluster ==> Verify(SignBeacon(b, secret), secret, other) == Rejected(ClusterMismatch)
  {
    hide SignBeacon, Verify, SerializeFields, ParsedFields;
    ParseUndoesSerialize(b);
    SignedBeaconIsChecked(b, secret, b.cluster);
    forall other ensures Verify(SignBeacon(b, secret), secret, other) == CheckBeacon(ParsedFields(SerializeFields(b)), other) {
      SignedBeaconIsChecked(b, secret, other);
    }
  }

  lemma {:induction false} RenderEndsInNewline(fields: seq<(string, string)>)
    requires fields != []
    ensures Render(fields) != "" && Render(fields)[|Render(fields)| - 1] == '\n'
  {
    if |fields| > 1 { RenderEndsInNewline(fields[1..]); }
  }

  lemma BlockShape(b: Beacon)
    ensures var block := SerializeFields(b);
      block != "" && block[|block| - 1] == '\n' && VersionMatches(block)
  {
    RenderEndsInNewline(FieldList(b));
    assert Line("v", "1") == "v=1\n";
    assert SerializeFields(b) == Line("v", "1") + Render(FieldList(b)[1..]);
  }

  /** The projection into the decision layer: a fresh beacon counts as a seen heartbeat. */
  function PeerStatusFromBeacon(b: Beacon): PeerStatus {
    PeerStatus(b.nodeId, b.priority, b.healthy, true, b.state)
  }
}
