/**
 * The registry of child processes (src/process/child_process_registry.cpp): its state file, and the
 * environment that a child reports through a pipe.
 */
module Registry {
  import opened Seqs
  import opened Monitors
  import opened Text

  type Env = map<string, string>

  datatype Entry = Entry(role: string, pid: int, owned: bool, env: Env)

  const NO_ENTRY := Entry("", -1, false, map[])

  // --- Writing -----------------------------------------------------------------------------------

  function EnvLine(key: string, value: string): string { "env." + key + "=" + value }

  function EnvLines(env: Env, keys: seq<string>): seq<string>
    requires forall i :: 0 <= i < |keys| ==> keys[i] in env
  {
    if keys == [] then []
    else EnvLines(env, keys[..|keys| - 1]) + [EnvLine(keys[|keys| - 1], env[keys[|keys| - 1]])]
  }

  /** `keys` lists the variables in the order in which the hash map happens to yield them. */
  ghost predicate Enumerates(keys: seq<string>, env: Env) {
    Distinct(keys) && forall key :: key in keys <==> key in env
  }

  function EntryLines(e: Entry, keys: seq<string>): seq<string>
    requires forall i :: 0 <= i < |keys| ==> keys[i] in e.env
  {
    ["role=" + e.role, "pid=" + PrintInt(e.pid), "owned=" + (if e.owned then "1" else "0")] +
    EnvLines(e.env, keys) + ["---"]
  }

  /** Entries without a role or a process are not saved. */
  predicate Saved(e: Entry) { e.role != "" && e.pid > 0 }

  ghost predicate Orders(entries: seq<Entry>, orders: seq<seq<string>>) {
    |orders| == |entries| && forall i :: 0 <= i < |entries| ==> Enumerates(orders[i], entries[i].env)
  }

  ghost function SavedLines(entries: seq<Entry>, orders: seq<seq<string>>): seq<string>
    requires Orders(entries, orders)
  {
    if entries == [] then []
    else
      var k := |entries| - 1;
      var rest := SavedLines(entries[..k], orders[..k]);
      if Saved(entries[k]) then rest + EntryLines(entries[k], orders[k]) else rest
  }

  function SavedEntries(entries: seq<Entry>): seq<Entry> {
    if entries == [] then []
    else
      var k := |entries| - 1;
      if Saved(entries[k]) then SavedEntries(entries[..k]) + [entries[k]] else SavedEntries(entries[..k])
  }

  // --- Reading -----------------------------------------------------------------------------------

  /** The reader's state: the entry under construction, whether a line of it was seen, what is finished. */
  datatype Reader = Reader(current: Entry, inEntry: bool, entries: seq<Entry>)

  function Finish(r: Reader): seq<Entry> {
    if r.inEntry && r.current.role != "" && r.current.pid > 0 then r.entries + [r.current] else r.entries
  }

  function ParsePid(s: string): int { if ReadInt(s).Number? then ReadInt(s).value else 0 }

  function WithVariable(e: Entry, text: string): Entry {
    var eq := IndexOf(text, '=');
    if eq <= 0 then e else e.(env := e.env[text[..eq] := text[eq + 1..]])
  }

  /** One line of the state file. */
  function ReadLine(r: Reader, line: string): Reader {
    if line == "" then r
    else if line == "---" then Reader(NO_ENTRY, false, Finish(r))
    else
      var c := r.current;
      r.(inEntry := true, current :=
        if "role=" <= line then c.(role := line[5..])
        else if "pid=" <= line then c.(pid := ParsePid(line[4..]))
        else if "owned=" <= line then c.(owned := line[6..] == "1")
        else if "env." <= line then WithVariable(c, line[4..])
        else c)
  }

  function ReadLines(r: Reader, lines: seq<string>): Reader {
    if lines == [] then r else ReadLine(ReadLines(r, lines[..|lines| - 1]), lines[|lines| - 1])
  }

  function LoadedFrom(text: string): seq<Entry> { Finish(ReadLines(Reader(NO_ENTRY, false, []), Lines(text))) }

  lemma {:induction false} ReadLinesAppend(r: Reader, a: seq<string>, b: seq<string>)
    ensures ReadLines(r, a + b) == ReadLines(ReadLines(r, a), b)
    decreases |b|
  {
    if b == [] {
      assert a + b == a;
    } else {
      assert (a + b)[..|a + b| - 1] == a + b[..|b| - 1];
      ReadLinesAppend(r, a, b[..|b| - 1]);
    }
  }

  lemma ReadLinesOne(r: Reader, line: string)
    ensures ReadLines(r, [line]) == ReadLine(r, line)
  {
    assert [line][..0] == [];
  }

  // --- The round trip ----------------------------------------------------------------------------

  /** What the file format can hold: nothing contains a newline, and keys are non-empty and without `=`. */
  ghost predicate Storable(e: Entry) {
    '\n' !in e.role &&
    forall key :: key in e.env ==> key != "" && '=' !in key && '\n' !in key && '\n' !in e.env[key]
  }

  lemma EqualsAt(key: string, value: string)
    requires '=' !in key
    ensures
      var text := key + "=" + value;
      IndexOf(text, '=') == |key| && text[..|key|] == key && text[|key| + 1..] == value
  {
    var text := key + "=" + value;
    assert text[|key|] == '=' && text[..|key|] == key;
  }

  lemma ReadVariable(r: Reader, key: string, value: string)
    requires key != "" && '=' !in key
    ensures ReadLine(r, EnvLine(key, value)) == r.(inEntry := true, current := r.current.(env := r.current.env[key := value]))
  {
    hide IndexOf;
    var line := EnvLine(key, value);
    assert line[0] == 'e' && "env." <= line;
    assert line[4..] == key + "=" + value;
    EqualsAt(key, value);
  }

  /** The variables named in `keys`. */
  function Picked(env: Env, keys: seq<string>): Env
    requires forall i :: 0 <= i < |keys| ==> keys[i] in env
  {
    if keys == [] then map[] else Picked(env, keys[..|keys| - 1])[keys[|keys| - 1] := env[keys[|keys| - 1]]]
  }

  lemma {:induction false} PickedHas(env: Env, keys: seq<string>)
    requires forall i :: 0 <= i < |keys| ==> keys[i] in env
    ensures forall key :: key in Picked(env, keys) <==> key in keys
    ensures forall key :: key in Picked(env, keys) ==> Picked(env, keys)[key] == env[key]
  {
    if keys != [] {
      PickedHas(env, keys[..|keys| - 1]);
      assert keys == keys[..|keys| - 1] + [keys[|keys| - 1]];
    }
  }

  lemma {:induction false} ReadVariables(r: Reader, env: Env, keys: seq<string>)
    requires r.inEntry && r.current.env == map[]
    requires forall i :: 0 <= i < |keys| ==> keys[i] in env && keys[i] != "" && '=' !in keys[i]
    ensures ReadLines(r, EnvLines(env, keys)) == r.(current := r.current.(env := Picked(env, keys)))
  {
    hide ReadLine, EnvLine;
    if keys != [] {
      var front, last := keys[..|keys| - 1], keys[|keys| - 1];
      ReadVariables(r, env, front);
      ReadLinesAppend(r, EnvLines(env, front), [EnvLine(last, env[last])]);
      ReadLinesOne(ReadLines(r, EnvLines(env, front)), EnvLine(last, env[last]));
      ReadVariable(ReadLines(r, EnvLines(env, front)), last, env[last]);
    }
  }

  lemma ReadHeader(r: Reader, e: Entry)
    requires e.pid > 0
    ensures ReadLines(r, ["role=" + e.role, "pid=" + PrintInt(e.pid), "owned=" + (if e.owned then "1" else "0")]) ==
      r.(inEntry := true, current := r.current.(role := e.role, pid := e.pid, owned := e.owned))
  {
    hide PrintInt, ReadInt;
    var a, b, c := "role=" + e.role, "pid=" + PrintInt(e.pid), "owned=" + (if e.owned then "1" else "0");
    ReadLinesAppend(r, [a], [b]);
    ReadLinesAppend(r, [a] + [b], [c]);
    assert [a] + [b] + [c] == [a, b, c];
    ReadLinesOne(r, a);
    ReadLinesOne(ReadLine(r, a), b);
    ReadLinesOne(ReadLine(ReadLine(r, a), b), c);
    assert a[0] == 'r' && a[5..] == e.role;
    assert b[0] == 'p' && b[4..] == PrintInt(e.pid);
    ReadPrint("", e.pid, "");
    assert "" + PrintInt(e.pid) + "" == PrintInt(e.pid);
    assert c[0] == 'o' && c[6..] == if e.owned then "1" else "0";
  }

  lemma ReadEntry(r: Reader, e: Entry, keys: seq<string>)
    requires !r.inEntry && r.current == NO_ENTRY
    requires Saved(e) && Storable(e) && Enumerates(keys, e.env)
    ensures ReadLines(r, EntryLines(e, keys)) == r.(entries := r.entries + [e])
  {
    hide ReadLine;
    var header := ["role=" + e.role, "pid=" + PrintInt(e.pid), "owned=" + (if e.owned then "1" else "0")];
    ReadHeader(r, e);
    ReadLinesAppend(r, header, EnvLines(e.env, keys));
    ReadVariables(ReadLines(r, header), e.env, keys);
    PickedHas(e.env, keys);
    assert Picked(e.env, keys) == e.env;
    ReadLinesAppend(r, header + EnvLines(e.env, keys), ["---"]);
    ReadLinesOne(ReadLines(r, header + EnvLines(e.env, keys)), "---");
    ReadDashes(ReadLines(r, header + EnvLines(e.env, keys)));
  }

  lemma ReadDashes(r: Reader)
    ensures ReadLine(r, "---") == Reader(NO_ENTRY, false, Finish(r))
  {
  }

  lemma {:induction false} ReadSaved(entries: seq<Entry>, orders: seq<seq<string>>)
    requires Orders(entries, orders) && forall i :: 0 <= i < |entries| ==> Storable(entries[i])
    ensures ReadLines(Reader(NO_ENTRY, false, []), SavedLines(entries, orders)) ==
      Reader(NO_ENTRY, false, SavedEntries(entries))
  {
    if entries != [] {
      var k := |entries| - 1;
      ReadSaved(entries[..k], orders[..k]);
      if Saved(entries[k]) {
        ReadLinesAppend(Reader(NO_ENTRY, false, []), SavedLines(entries[..k], orders[..k]), EntryLines(entries[k], orders[k]));
        ReadEntry(Reader(NO_ENTRY, false, SavedEntries(entries[..k])), entries[k], orders[k]);
      }
    }
  }

  lemma {:induction false} EnvLinesClean(e: Entry, keys: seq<string>)
    requires Storable(e) && forall i :: 0 <= i < |keys| ==> keys[i] in e.env
    ensures forall i :: 0 <= i < |EnvLines(e.env, keys)| ==> '\n' !in EnvLines(e.env, keys)[i]
  {
    if keys != [] {
      EnvLinesClean(e, keys[..|keys| - 1]);
    }
  }

  lemma {:induction false} SavedLinesClean(entries: seq<Entry>, orders: seq<seq<string>>)
    requires Orders(entries, orders) && forall i :: 0 <= i < |entries| ==> Storable(entries[i])
    ensures forall i :: 0 <= i < |SavedLines(entries, orders)| ==> '\n' !in SavedLines(entries, orders)[i]
  {
    if entries != [] {
      var k := |entries| - 1;
      SavedLinesClean(entries[..k], orders[..k]);
      if Saved(entries[k]) {
        EnvLinesClean(entries[k], orders[k]);
        assert '\n' !in PrintInt(entries[k].pid);
      }
    }
  }

  /** Loading what was saved gives back the saved entries, in whatever order the variables were written. */
  lemma RegistryRoundTrip(entries: seq<Entry>, orders: seq<seq<string>>)
    requires Orders(entries, orders) && forall i :: 0 <= i < |entries| ==> Storable(entries[i])
    ensures LoadedFrom(Unlines(SavedLines(entries, orders))) == SavedEntries(entries)
  {
    SavedLinesClean(entries, orders);
    LinesUnlines(SavedLines(entries, orders));
    ReadSaved(entries, orders);
  }

  /** The entries of running children: those with a role and a process id. */
  lemma {:induction false} SavedAreRunning(entries: seq<Entry>, e: Entry)
    ensures e in SavedEntries(entries) <==> e in entries && e.role != "" && e.pid > 0
  {
    if entries != [] {
      SavedAreRunning(entries[..|entries| - 1], e);
      assert entries == entries[..|entries| - 1] + [entries[|entries| - 1]];
    }
  }

  // --- The registry object -----------------------------------------------------------------------

  /** The entries in memory and the contents of the state file. */
  class ChildProcessRegistry {
    var entries: seq<Entry>
    var file: string

    constructor (file: string)
      ensures this.file == file && entries == LoadedFrom(file)
    {
      this.file, entries := file, [];
      new;
      LoadState();
    }

    method LoadState()
      modifies this`entries
      ensures entries == LoadedFrom(file)
    {
      hide Lines, ReadLine, ReadLines;
      entries := [];
      var current, inEntry := NO_ENTRY, false;
      var text := file;
      ghost var start, seen: seq<string> := Reader(NO_ENTRY, false, []), [];
      NoLines(start);
      while text != ""
        invariant Lines(file) == seen + Lines(text)
        invariant Reader(current, inEntry, entries) == ReadLines(start, seen)
        decreases |text|
      {
        LinesStep(text);
        var nl := IndexOf(text, '\n');
        var line := if nl < 0 then text else text[..nl];
        text := if nl < 0 then "" else text[nl + 1..];
        ReadLinesAppend(start, seen, [line]);
        ReadLinesOne(ReadLines(start, seen), line);
        seen := seen + [line];
        current, inEntry := LoadLine(current, inEntry, line);
      }
      assert seen + Lines("") == seen;
      if inEntry && current.role != "" && current.pid > 0 {
        entries := entries + [current];
      }
    }

    /** One turn of the loop of load_state. */
    method LoadLine(was: Entry, wasIn: bool, line: string) returns (current: Entry, inEntry: bool)
      modifies this`entries
      ensures Reader(current, inEntry, entries) == ReadLine(Reader(was, wasIn, old(entries)), line)
    {
      hide IndexOf, ReadInt;
      current, inEntry := was, wasIn;
      if line == "" {
        return;
      }
      if line == "---" {
        if inEntry && current.role != "" && current.pid > 0 {
          entries := entries + [current];
        }
        return NO_ENTRY, false;
      }
      inEntry := true;
      if "role=" <= line {
        current := current.(role := line[5..]);
        return;
      }
      if "pid=" <= line {
        current := current.(pid := ParsePid(line[4..]));
        return;
      }
      if "owned=" <= line {
        current := current.(owned := line[6..] == "1");
        return;
      }
      if "env." <= line {
        current := LoadVariable(current, line[4..]);
      }
    }

    method SaveState() returns (ghost orders: seq<seq<string>>)
      modifies this`file
      ensures Orders(entries, orders) && file == Unlines(SavedLines(entries, orders))
    {
      hide EntryLines, Enumerates;
      assert Unlines([]) == "";
      hide Unlines;
      var out := "";
      orders := [];
      for i := 0 to |entries|
        invariant Orders(entries[..i], orders) && out == Unlines(SavedLines(entries[..i], orders))
      {
        var e := entries[i];
        assert entries[..i + 1][..i] == entries[..i];
        if e.role == "" || e.pid <= 0 {
          ghost var keys := AnyOrder(e.env);
          assert (orders + [keys])[..i] == orders;
          orders := orders + [keys];
          continue;
        }
        ghost var keys;
        var text;
        text, keys := SaveEntry(e);
        UnlinesAppend(SavedLines(entries[..i], orders), EntryLines(e, keys));
        assert (orders + [keys])[..i] == orders;
        orders := orders + [keys];
        out := out + text;
      }
      assert entries[..|entries|] == entries;
      file := out;
    }
  }

  lemma LinesStep(text: string)
    requires text != ""
    ensures
      var nl := IndexOf(text, '\n');
      Lines(text) == (if nl < 0 then [text] + Lines("") else [text[..nl]] + Lines(text[nl + 1..]))
  {
    hide IndexOf;
  }

  lemma NoLines(r: Reader)
    ensures Lines("") == [] && ReadLines(r, []) == r
  {
  }

  method LoadVariable(e: Entry, text: string) returns (r: Entry)
    ensures r == WithVariable(e, text)
  {
    r := e;
    var eq := IndexOf(text, '=');
    if eq < 0 {
      return;
    }
    var key, val := text[..eq], text[eq + 1..];
    if key != "" {
      r := r.(env := r.env[key := val]);
    }
  }

  lemma AnyOrder(env: Env) returns (keys: seq<string>)
    ensures Enumerates(keys, env)
  {
    keys := [];
    var todo := env.Keys;
    while todo != {}
      invariant todo <= env.Keys && Distinct(keys) && forall key :: key in keys <==> key in env.Keys - todo
      decreases |todo|
    {
      var key :| key in todo;
      DistinctSnoc(keys, key);
      keys, todo := keys + [key], todo - {key};
    }
  }

  /** The lines of one entry; the loop visits the variables in some order. */
  method SaveEntry(e: Entry) returns (out: string, ghost keys: seq<string>)
    ensures Enumerates(keys, e.env) && out == Unlines(EntryLines(e, keys))
  {
    ghost var header := ["role=" + e.role, "pid=" + PrintInt(e.pid), "owned=" + (if e.owned then "1" else "0")];
    out := "role=" + e.role + "\n";
    out := out + "pid=" + PrintInt(e.pid) + "\n";
    out := out + "owned=" + (if e.owned then "1" else "0") + "\n";
    UnlinesHeader(header[0], header[1], header[2]);
    assert out == Unlines(header);
    var text;
    text, keys := SaveEnv(e.env);
    UnlinesAppend(header, EnvLines(e.env, keys));
    out := out + text;
    AppendLine(header + EnvLines(e.env, keys), "---");
    out := out + "---\n";
  }

  method SaveEnv(env: Env) returns (out: string, ghost keys: seq<string>)
    ensures Enumerates(keys, env) && out == Unlines(EnvLines(env, keys))
  {
    out, keys := "", [];
    var todo := env.Keys;
    while todo != {}
      invariant todo <= env.Keys && Distinct(keys) && forall key :: key in keys <==> key in env.Keys - todo
      invariant forall i :: 0 <= i < |keys| ==> keys[i] in env
      invariant out == Unlines(EnvLines(env, keys))
      decreases |todo|
    {
      var key :| key in todo;
      AppendLine(EnvLines(env, keys), EnvLine(key, env[key]));
      assert (keys + [key])[..|keys|] == keys;
      DistinctSnoc(keys, key);
      keys, todo := keys + [key], todo - {key};
      out := out + ("env." + key + "=" + env[key]) + "\n";
    }
  }

  lemma AppendLine(lines: seq<string>, line: string)
    ensures Unlines(lines + [line]) == Unlines(lines) + line + "\n"
  {
    UnlinesAppend(lines, [line]);
    assert [line][1..] == [];
    assert Unlines([line]) == line + "\n";
  }

  lemma UnlinesHeader(a: string, b: string, c: string)
    ensures Unlines([a, b, c]) == a + "\n" + b + "\n" + c + "\n"
  {
    assert [a, b, c] == [a] + [b] + [c];
    AppendLine([], a);
    AppendLine([a], b);
    AppendLine([a] + [b], c);
    assert [] + [a] == [a];
  }

  // --- The environment on the pipe ---------------------------------------------------------------

  predicate KeyChar(c: char) { c == '_' || 'A' <= c <= 'Z' || '0' <= c <= '9' }

  datatype Parsed = Ignored | Variable(key: string, value: string)

  /** parse_env_line. */
  function ParseEnvLine(line: string): Parsed {
    var eq := IndexOf(line, '=');
    if eq <= 0 || exists i | 0 <= i < eq :: !KeyChar(line[i]) then Ignored
    else Variable(line[..eq], line[eq + 1..])
  }

  /** Keys that parse_env_line accepts can be stored in the state file. */
  lemma ParsedKeysStorable(line: string)
    requires ParseEnvLine(line).Variable? && '\n' !in line
    ensures Storable(NO_ENTRY.(env := map[ParseEnvLine(line).key := ParseEnvLine(line).value]))
  {
    var p := ParseEnvLine(line);
    assert forall i :: 0 <= i < |p.key| ==> p.key[i] == line[i] && KeyChar(line[i]);
    assert forall i :: 0 <= i < |p.value| ==> p.value[i] in line;
  }

  function Learn(env: Env, line: string): Env {
    var p := ParseEnvLine(line);
    if p.Variable? then env[p.key := p.value] else env
  }

  function LearnAll(env: Env, lines: seq<string>): Env
    decreases |lines|
  {
    if lines == [] then env else LearnAll(Learn(env, lines[0]), lines[1..])
  }

  lemma {:induction false} LearnAllAppend(env: Env, a: seq<string>, b: seq<string>)
    ensures LearnAll(env, a + b) == LearnAll(LearnAll(env, a), b)
    decreases |a|
  {
    if a == [] {
      assert a + b == b;
    } else {
      assert (a + b)[0] == a[0] && (a + b)[1..] == a[1..] + b;
      LearnAllAppend(Learn(env, a[0]), a[1..], b);
    }
  }

  /** The environment that the bytes received so far spell out. */
  function EnvOf(bytes: string): Env { LearnAll(map[], Complete(bytes)) }

  predicate HasAllKeys(env: Env, keys: seq<string>) {
    forall i | 0 <= i < |keys| :: keys[i] in env && env[keys[i]] != ""
  }

  /** One turn of the wait: the bytes that were read, if any, and whether the child was seen to exit. */
  datatype Tick = Tick(chunk: string, exited: bool)

  function Received(ticks: seq<Tick>): string {
    if ticks == [] then "" else Received(ticks[..|ticks| - 1]) + ticks[|ticks| - 1].chunk
  }

  /** The inner loop: complete lines leave the buffer. */
  method Consume(buffer: string, env: Env) returns (rest: string, learnt: Env)
    ensures rest == Rest(buffer) && learnt == LearnAll(env, Complete(buffer))
  {
    hide IndexOf, Learn, LearnAll, Complete, Rest;
    learnt := env;
    var pos := 0;
    assert buffer[0..] == buffer;
    while true
      invariant 0 <= pos <= |buffer|
      invariant Rest(buffer[pos..]) == Rest(buffer)
      invariant LearnAll(learnt, Complete(buffer[pos..])) == LearnAll(env, Complete(buffer))
      decreases |buffer| - pos
    {
      var found := IndexOf(buffer[pos..], '\n');
      if found < 0 {
        NoLine(buffer[pos..], learnt);
        rest := buffer[pos..];
        return;
      }
      var nl := pos + found;
      var line := buffer[pos..nl];
      OneLine(buffer[pos..], learnt);
      assert buffer[pos..][..found] == line && buffer[pos..][found + 1..] == buffer[nl + 1..];
      pos := nl + 1;
      learnt := Learn(learnt, line);
    }
  }

  lemma NoLine(s: string, env: Env)
    requires '\n' !in s
    ensures Rest(s) == s && LearnAll(env, Complete(s)) == env
  {
    assert IndexOf(s, '\n') < 0;
  }

  lemma OneLine(s: string, env: Env)
    requires '\n' in s
    ensures
      var i := IndexOf(s, '\n');
      && LearnAll(env, Complete(s)) == LearnAll(Learn(env, s[..i]), Complete(s[i + 1..]))
      && Rest(s) == Rest(s[i + 1..])
  {
    hide IndexOf, Learn;
    var i := IndexOf(s, '\n');
    assert Complete(s) == [s[..i]] + Complete(s[i + 1..]);
    assert Complete(s)[1..] == Complete(s[i + 1..]);
  }

  /**
   * wait_for_env_lines: `ticks` is what poll, read and waitpid yield, turn by turn. Success is reported at
   * the first turn after which all keys are known; failure when the child exits before that, or at the end.
   */
  method WaitForEnvLines(ticks: seq<Tick>, keys: seq<string>) returns (ok: bool, env: Env, turns: nat)
    ensures turns <= |ticks| && env == EnvOf(Received(ticks[..turns]))
    ensures ok ==> turns > 0 && HasAllKeys(env, keys)
    ensures !ok ==> turns == |ticks| || (turns > 0 && ticks[turns - 1].exited)
    ensures forall j :: 0 < j < turns ==> !HasAllKeys(EnvOf(Received(ticks[..j])), keys) && !ticks[j - 1].exited
    ensures !ok && turns > 0 ==> !HasAllKeys(env, keys)
  {
    hide HasAllKeys, Rest, EnvOf, Received;
    NothingYet();
    env := map[];
    var buffer := "";
    assert ticks[..0] == [];
    for i := 0 to |ticks|
      invariant env == EnvOf(Received(ticks[..i])) && buffer == Rest(Received(ticks[..i]))
      invariant forall j :: 0 < j <= i ==> !HasAllKeys(EnvOf(Received(ticks[..j])), keys) && !ticks[j - 1].exited
    {
      ReceivedNext(ticks, i);
      buffer, env := TakeChunk(buffer, env, ticks[i].chunk, Received(ticks[..i]));
      if HasAllKeys(env, keys) {
        return true, env, i + 1;
      }
      if ticks[i].exited {
        return false, env, i + 1;
      }
    }
    assert ticks[..|ticks|] == ticks;
    ok, turns := false, |ticks|;
  }

  lemma ReceivedNext(ticks: seq<Tick>, i: nat)
    requires i < |ticks|
    ensures Received(ticks[..i + 1]) == Received(ticks[..i]) + ticks[i].chunk
  {
    PrefixSnoc(ticks, i);
  }

  /** What one read adds to the buffer and the environment; `before` are the bytes received so far. */
  method TakeChunk(was: string, known: Env, chunk: string, ghost before: string) returns (buffer: string, env: Env)
    requires was == Rest(before) && known == EnvOf(before)
    ensures buffer == Rest(before + chunk) && env == EnvOf(before + chunk)
  {
    hide Complete, Rest, LearnAll;
    buffer, env := was, known;
    if chunk != "" {
      CompleteAppend(before, chunk);
      LearnAllAppend(map[], Complete(before), Complete(was + chunk));
      buffer, env := Consume(buffer + chunk, env);
    } else {
      assert before + chunk == before;
    }
  }

  lemma NothingYet()
    ensures EnvOf("") == map[] && Rest("") == "" && Received([]) == ""
  {
  }

  /** Reading on: only the open rest and the new bytes matter, however the bytes before were split. */
  lemma ReadsExtend(a: seq<Tick>, b: seq<Tick>, more: string)
    requires Received(a) == Received(b) + more
    ensures EnvOf(Received(a)) == LearnAll(EnvOf(Received(b)), Complete(Rest(Received(b)) + more))
  {
    CompleteAppend(Received(b), more);
    LearnAllAppend(map[], Complete(Received(b)), Complete(Rest(Received(b)) + more));
  }

  // --- What the bytes spell ----------------------------------------------------------------------

  /** A line that sets a variable: a name of capitals, digits and underscores, an equals sign, the value. */
  ghost predicate Spells(line: string, key: string, value: string) {
    && key != "" && (forall i :: 0 <= i < |key| ==> key[i] == '_' || 'A' <= key[i] <= 'Z' || '0' <= key[i] <= '9')
    && line == key + "=" + value
  }

  lemma KeyCharIs()
    ensures forall c: char :: KeyChar(c) <==> c == '_' || 'A' <= c <= 'Z' || '0' <= c <= '9'
    ensures !KeyChar('=')
  {
  }

  lemma EnvLineIs(line: string, key: string, value: string)
    ensures ParseEnvLine(line) == Variable(key, value) <==> Spells(line, key, value)
  {
    hide ParseEnvLine, Spells;
    if Spells(line, key, value) {
      SpeltIsParsed(line, key, value);
    }
    if ParseEnvLine(line) == Variable(key, value) {
      ParsedIsSpelt(line, key, value);
    }
  }

  lemma SpeltIsParsed(line: string, key: string, value: string)
    requires Spells(line, key, value)
    ensures ParseEnvLine(line) == Variable(key, value)
  {
    hide KeyChar;
    KeyCharIs();
    assert '=' !in key;
    EqualsAt(key, value);
    assert forall i :: 0 <= i < |key| ==> line[i] == key[i];
  }

  lemma ParsedIsSpelt(line: string, key: string, value: string)
    requires ParseEnvLine(line) == Variable(key, value)
    ensures Spells(line, key, value)
  {
    hide KeyChar;
    KeyCharIs();
    var eq := IndexOf(line, '=');
    assert line == line[..eq] + "=" + line[eq + 1..];
    assert forall i :: 0 <= i < eq ==> key[i] == line[i];
  }

  lemma {:induction false} CompleteLines(lines: seq<string>, rest: string)
    requires (forall i :: 0 <= i < |lines| ==> '\n' !in lines[i]) && '\n' !in rest
    ensures Complete(Unlines(lines) + rest) == lines
  {
    if lines == [] {
      assert Unlines(lines) + rest == rest;
    } else {
      var t := Unlines(lines[1..]) + rest;
      assert Unlines(lines) + rest == lines[0] + "\n" + t;
      FirstLine(lines[0], t);
      CompleteLines(lines[1..], rest);
    }
  }

  /** The i-th line sets `key` to `value`, and no later one sets it. */
  ghost predicate LastSets(lines: seq<string>, key: string, i: int, value: string) {
    0 <= i < |lines| && Spells(lines[i], key, value) && forall j, v :: i < j < |lines| ==> !Spells(lines[j], key, v)
  }

  lemma {:induction false} LastWins(lines: seq<string>, key: string)
    ensures key in LearnAll(map[], lines) <==> exists i, v :: 0 <= i < |lines| && Spells(lines[i], key, v)
    ensures forall i, v :: LastSets(lines, key, i, v) ==> key in LearnAll(map[], lines) && LearnAll(map[], lines)[key] == v
  {
    hide ParseEnvLine, Spells;
    if lines != [] {
      var front, last := lines[..|lines| - 1], lines[|lines| - 1];
      LastWins(front, key);
      assert lines == front + [last];
      LearnAllAppend(map[], front, [last]);
      var env := LearnAll(map[], front);
      assert LearnAll(env, [last]) == Learn(env, last) by {
        assert [last][1..] == [];
      }
      forall v
        ensures Spells(last, key, v) <==> ParseEnvLine(last) == Variable(key, v)
      {
        EnvLineIs(last, key, v);
      }
      if key in Learn(env, last) {
        if key in env {
          var i, v :| 0 <= i < |front| && Spells(front[i], key, v);
          assert Spells(lines[i], key, v);
        } else {
          assert Spells(last, key, ParseEnvLine(last).value);
        }
      }
      forall i, v | LastSets(lines, key, i, v)
        ensures key in Learn(env, last) && Learn(env, last)[key] == v
      {
        if i < |front| {
          assert LastSets(front, key, i, v);
          assert forall u :: !Spells(lines[|front|], key, u);
        }
      }
    }
  }

  /**
   * A variable is known exactly if one of the completed lines received so far sets it, and then has the value
   * of the last one that does. What follows the last newline does not count yet.
   */
  lemma EnvIsSpelt(lines: seq<string>, rest: string, key: string)
    requires (forall i :: 0 <= i < |lines| ==> '\n' !in lines[i]) && '\n' !in rest
    ensures
      var env := EnvOf(Unlines(lines) + rest);
      && (key in env <==> exists i, v :: 0 <= i < |lines| && Spells(lines[i], key, v))
      && forall i, v :: LastSets(lines, key, i, v) ==> key in env && env[key] == v
  {
    CompleteLines(lines, rest);
    LastWins(lines, key);
  }
}
