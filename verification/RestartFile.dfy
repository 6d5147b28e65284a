/**
 * The file that carries window and monitor state over an exec-restart: written by save_restart_state
 * (core/src/runtime/runtime.cpp:841-891), read by load_restart_state (backends/x11/src/backend/adopt.cpp:42-75).
 */
module RestartFile {
  import opened Text
  import opened Seqs

  datatype WinState = WinState(ws: int, floating: bool, fullscreen: bool, hidden: bool, borderless: bool)

  datatype Record = Record(win: nat, state: WinState)

  datatype Restored = Restored(windows: map<int, WinState>, monitors: map<int, int>)

  const NOTHING := Restored(map[], map[])

  // --- Writing -----------------------------------------------------------------------------------

  function Bit(b: bool): int { if b then 1 else 0 }

  /** Numbers, each preceded by a blank. */
  function Numbers(ns: seq<int>): string {
    if ns == [] then "" else " " + PrintInt(ns[0]) + Numbers(ns[1..])
  }

  function MonLine(i: int, ws: int): string { "MON" + Numbers([i, ws]) }

  function WinNumbers(r: Record): seq<int> {
    [r.win, r.state.ws, Bit(r.state.floating), Bit(r.state.fullscreen), Bit(r.state.hidden), Bit(r.state.borderless)]
  }

  function WinLine(r: Record): string { "WINDOW" + Numbers(WinNumbers(r)) }

  function MonText(mons: seq<int>): string {
    if mons == [] then "" else MonText(mons[..|mons| - 1]) + MonLine(|mons| - 1, mons[|mons| - 1]) + "\n"
  }

  function WinText(records: seq<Record>): string {
    if records == [] then "" else WinText(records[..|records| - 1]) + WinLine(records[|records| - 1]) + "\n"
  }

  function FileText(mons: seq<int>, records: seq<Record>): string { MonText(mons) + WinText(records) }

  // --- Reading -----------------------------------------------------------------------------------

  /** How many characters before the next white space. */
  function WordRun(s: string): (k: nat)
    ensures k <= |s| && (s != "" && !IsSpace(s[0]) ==> k > 0)
  {
    if s == "" || IsSpace(s[0]) then 0 else 1 + WordRun(s[1..])
  }

  /** Up to `k` numbers, stopping at the first that cannot be read. */
  function ReadNumbers(s: string, k: nat): (r: (seq<int>, string))
    ensures |r.0| <= k && |r.1| <= |s|
    decreases k
  {
    if k == 0 || ReadInt(s).NoNumber? then ([], s)
    else
      var tail := ReadNumbers(ReadInt(s).rest, k - 1);
      ([ReadInt(s).value] + tail.0, tail.1)
  }

  function Flag(ns: seq<int>, i: nat): bool { i < |ns| && ns[i] != 0 }

  /** A window number is read as an unsigned 32-bit word: a negative one wraps. */
  function WindowNumber(v: int): int { if v < 0 then v + 0x1_0000_0000 else v }

  function WithWindow(r: Restored, ns: seq<int>): Restored {
    if |ns| < 3 then r
    else r.(windows := r.windows[WindowNumber(ns[0]) := WinState(ns[1], ns[2] != 0, Flag(ns, 3), Flag(ns, 4), Flag(ns, 5))])
  }

  /** The rest of the current line, and what follows it. */
  function TakeLine(s: string): (r: (string, string))
    ensures |r.1| <= |s|
  {
    var i := IndexOf(s, '\n');
    if i < 0 then (s, "") else (s[..i], s[i + 1..])
  }

  /** The token loop; a number that cannot be read after MON ends it, for the stream has failed. */
  function Parse(r: Restored, s: string): Restored
    decreases |s|
  {
    var t := SkipSpace(s);
    if t == "" then r
    else
      var k := WordRun(t);
      var rest := t[k..];
      if t[..k] == "MON" then
        var two := ReadNumbers(rest, 2);
        if |two.0| < 2 then r else Parse(r.(monitors := r.monitors[two.0[0] := two.0[1]]), two.1)
      else if t[..k] == "WINDOW" then
        var line := TakeLine(rest);
        if rest == "" then r else Parse(WithWindow(r, ReadNumbers(line.0, 6).0), line.1)
      else
        Parse(r, rest)
  }

  // --- The round trip ----------------------------------------------------------------------------

  lemma {:induction false} ReadNumbersPrinted(ns: seq<int>, t: string)
    requires t != "" ==> !IsDigit(t[0])
    ensures ReadNumbers(Numbers(ns) + t, |ns|) == (ns, t)
  {
    hide ReadInt, PrintInt;
    if ns == [] {
      assert Numbers(ns) + t == t;
    } else {
      var rest := Numbers(ns[1..]) + t;
      assert Numbers(ns) + t == " " + PrintInt(ns[0]) + rest;
      if ns[1..] == [] {
        assert rest == t;
      } else {
        assert rest[0] == ' ';
      }
      ReadPrint(" ", ns[0], rest);
      ReadNumbersPrinted(ns[1..], t);
      assert ns == [ns[0]] + ns[1..];
    }
  }

  lemma {:induction false} WordRunOf(word: string, t: string)
    requires (forall i :: 0 <= i < |word| ==> !IsSpace(word[i])) && (t != "" ==> IsSpace(t[0]))
    ensures WordRun(word + t) == |word|
  {
    if word == "" {
      assert word + t == t;
    } else {
      assert (word + t)[1..] == word[1..] + t;
      WordRunOf(word[1..], t);
    }
  }

  /** The first word of a line. */
  lemma FirstWord(blank: string, word: string, t: string)
    requires Blank(blank) && word != "" && (forall i :: 0 <= i < |word| ==> !IsSpace(word[i]))
    requires t != "" ==> IsSpace(t[0])
    ensures
      var u := SkipSpace(blank + word + t);
      u == word + t && WordRun(u) == |word| && u[..|word|] == word && u[|word|..] == t
  {
    assert blank + word + t == blank + (word + t);
    SkipBlank(blank, word + t);
    WordRunOf(word, t);
  }

  lemma ParseMon(r: Restored, blank: string, i: int, ws: int, t: string)
    requires Blank(blank)
    ensures Parse(r, blank + MonLine(i, ws) + "\n" + t) == Parse(r.(monitors := r.monitors[i := ws]), "\n" + t)
  {
    hide ReadNumbers, Numbers, SkipSpace, WordRun;
    var tail := Numbers([i, ws]) + ("\n" + t);
    assert blank + MonLine(i, ws) + "\n" + t == blank + "MON" + tail;
    NumbersStart([i, ws], "\n" + t);
    FirstWord(blank, "MON", tail);
    ReadNumbersPrinted([i, ws], "\n" + t);
  }

  lemma NumbersStart(ns: seq<int>, t: string)
    requires ns != []
    ensures Numbers(ns) + t != "" && (Numbers(ns) + t)[0] == ' '
  {
  }

  lemma {:induction false} NumbersClean(ns: seq<int>)
    ensures '\n' !in Numbers(ns)
  {
    if ns != [] {
      NumbersClean(ns[1..]);
      assert '\n' !in PrintInt(ns[0]);
    }
  }

  /** A line that starts with WINDOW is read as a whole. */
  lemma ParseLine(r: Restored, s: string, line: string, t: string)
    requires
      var u := SkipSpace(s);
      u == "WINDOW" + (line + "\n" + t) && WordRun(u) == 6
    requires '\n' !in line
    ensures Parse(r, s) == Parse(WithWindow(r, ReadNumbers(line, 6).0), t)
  {
    hide ReadNumbers, SkipSpace, WordRun, IndexOf, WithWindow;
    var u := SkipSpace(s);
    assert u[..6] == "WINDOW" && u[6..] == line + "\n" + t;
    IndexOfNewline(line, t);
  }

  lemma ParseWindow(r: Restored, blank: string, rec: Record, t: string)
    requires Blank(blank)
    ensures Parse(r, blank + WinLine(rec) + "\n" + t) == Parse(r.(windows := r.windows[rec.win := rec.state]), t)
  {
    hide ReadNumbers, Numbers, SkipSpace, WordRun, Parse;
    var ns := WinNumbers(rec);
    var tail := Numbers(ns) + "\n" + t;
    var s := blank + WinLine(rec) + "\n" + t;
    assert s == blank + "WINDOW" + tail;
    NumbersStart(ns, "\n" + t);
    assert tail == Numbers(ns) + ("\n" + t);
    FirstWord(blank, "WINDOW", tail);
    NumbersClean(ns);
    ParseLine(r, s, Numbers(ns), t);
    ReadNumbersPrinted(ns, "");
    assert Numbers(ns) + "" == Numbers(ns);
    assert WithWindow(r, ns) == r.(windows := r.windows[rec.win := rec.state]);
  }

  function MonMap(mons: seq<int>): map<int, int> { map i: int | 0 <= i < |mons| :: mons[i] }

  function WinMap(records: seq<Record>): map<int, WinState> {
    if records == [] then map[]
    else
      var r := records[|records| - 1];
      WinMap(records[..|records| - 1])[r.win := r.state]
  }

  lemma {:induction false} ParseMons(mons: seq<int>, t: string)
    ensures Parse(NOTHING, MonText(mons) + t) ==
      Parse(Restored(map[], MonMap(mons)), if mons == [] then t else "\n" + t)
  {
    hide Parse, MonLine;
    if mons == [] {
      assert MonText(mons) + t == t;
      assert MonMap(mons) == map[];
    } else {
      var k := |mons| - 1;
      var line := MonLine(k, mons[k]);
      ParseMons(mons[..k], line + "\n" + t);
      assert MonText(mons) + t == MonText(mons[..k]) + (line + "\n" + t);
      var blank := if k == 0 then "" else "\n";
      assert (if mons[..k] == [] then line + "\n" + t else "\n" + (line + "\n" + t)) == blank + line + "\n" + t;
      ParseMon(Restored(map[], MonMap(mons[..k])), blank, k, mons[k], t);
      assert MonMap(mons) == MonMap(mons[..k])[k := mons[k]];
    }
  }

  lemma {:induction false} ParseWindows(r: Restored, blank: string, records: seq<Record>, t: string)
    requires Blank(blank) && r.windows == map[]
    ensures Parse(r, blank + WinText(records) + t) ==
      Parse(r.(windows := WinMap(records)), if records == [] then blank + t else t)
  {
    hide Parse, WinLine;
    if records == [] {
      assert blank + WinText(records) + t == blank + t;
      assert r == r.(windows := WinMap(records));
    } else {
      var k := |records| - 1;
      var line := WinLine(records[k]);
      ParseWindows(r, blank, records[..k], line + "\n" + t);
      assert blank + WinText(records) + t == blank + WinText(records[..k]) + (line + "\n" + t);
      var b := if k == 0 then blank else "";
      assert (if records[..k] == [] then blank + (line + "\n" + t) else line + "\n" + t) == b + line + "\n" + t;
      ParseWindow(r.(windows := WinMap(records[..k])), b, records[k], t);
    }
  }

  /** Reading the file gives back every monitor and every window that was written. */
  lemma FileRoundTrip(mons: seq<int>, records: seq<Record>)
    ensures Parse(NOTHING, FileText(mons, records)) == Restored(WinMap(records), MonMap(mons))
  {
    hide WinText, MonText;
    ParseMons(mons, WinText(records));
    var blank := if mons == [] then "" else "\n";
    assert (if mons == [] then WinText(records) else "\n" + WinText(records)) == blank + WinText(records) + "";
    ParseWindows(Restored(map[], MonMap(mons)), blank, records, "");
  }

  /** With distinct windows, each has its own record. */
  lemma {:induction false} WinMapHas(records: seq<Record>, i: nat)
    requires i < |records| && forall j, k :: 0 <= j < k < |records| ==> records[j].win != records[k].win
    ensures records[i].win in WinMap(records) && WinMap(records)[records[i].win] == records[i].state
  {
    if i < |records| - 1 {
      WinMapHas(records[..|records| - 1], i);
    }
  }

  lemma {:induction false} WinMapOnly(records: seq<Record>, win: int)
    requires win in WinMap(records)
    ensures exists i :: 0 <= i < |records| && records[i].win == win && records[i].state == WinMap(records)[win]
  {
    var k := |records| - 1;
    if records[k].win == win {
      assert records[k].state == WinMap(records)[win];
    } else {
      WinMapOnly(records[..k], win);
      var i :| 0 <= i < k && records[..k][i].win == win && records[..k][i].state == WinMap(records[..k])[win];
      assert records[i].win == win && records[i].state == WinMap(records)[win];
    }
  }

  // --- The reader's loop -------------------------------------------------------------------------

  method LoadRestartState(text: string) returns (out: Restored)
    ensures out == Parse(NOTHING, text)
  {
    out := NOTHING;
    var s := text;
    while true
      invariant Parse(out, s) == Parse(NOTHING, text)
      decreases |s|
    {
      var t := SkipSpace(s);
      if t == "" {
        return;
      }
      var k := WordRun(t);
      var token := t[..k];
      s := t[k..];
      if token == "MON" {
        var two := ReadNumbers(s, 2);
        if |two.0| < 2 {
          return;
        }
        out := out.(monitors := out.monitors[two.0[0] := two.0[1]]);
        s := two.1;
      } else if token == "WINDOW" {
        if s == "" {
          return;
        }
        var line := TakeLine(s);
        s := line.1;
        var ns := ReadNumbers(line.0, 6).0;
        if |ns| < 3 {
          continue;
        }
        out := out.(windows := out.windows[WindowNumber(ns[0]) := WinState(ns[1], ns[2] != 0, Flag(ns, 3), Flag(ns, 4), Flag(ns, 5))]);
      }
    }
  }
}
