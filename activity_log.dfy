/** The activity panel (calsnap/src/components/ActivityLog.tsx): a buffer of
    at most fifty log entries, newest first, fed by the log bus, and the
    text its copy button puts on the clipboard. The `HH:mm:ss` formatting
    of a timestamp is the parameter `clock`. */
module ActivityLog {
  import opened TextOps
  import opened Logger

  const MaxLogs: int := 50

  function Min(a: int, b: int): int {
    if a <= b then a else b
  }

  /** `[entry, ...prev].slice(0, 50)` */
  function Push(entry: LogEntry, prev: seq<LogEntry>): (r: seq<LogEntry>)
    ensures |r| == Min(|prev| + 1, MaxLogs)
    ensures r[0] == entry
    ensures forall i :: 1 <= i < |r| ==> r[i] == prev[i - 1]
  {
    ([entry] + prev)[..Min(|prev| + 1, MaxLogs)]
  }

  /** A full buffer loses exactly its oldest entry. */
  lemma {:induction false} FullBufferDropsOldest(entry: LogEntry, prev: seq<LogEntry>)
    requires |prev| == MaxLogs
    ensures Push(entry, prev) == [entry] + prev[..MaxLogs - 1]
  {
    var r := Push(entry, prev);
    assert |r| == |[entry] + prev[..MaxLogs - 1]|;
    forall i | 0 <= i < |r| ensures r[i] == ([entry] + prev[..MaxLogs - 1])[i] {
      if i > 0 {
        assert r[i] == prev[i - 1];
      }
    }
  }

  function Reverse(s: seq<LogEntry>): (r: seq<LogEntry>)
    ensures |r| == |s|
    ensures forall i :: 0 <= i < |s| ==> r[i] == s[|s| - 1 - i]
  {
    if s == [] then [] else Reverse(s[1..]) + [s[0]]
  }

  /** The buffer after the entries `es` arrive, oldest first. */
  function PushAll(es: seq<LogEntry>, buffer: seq<LogEntry>): seq<LogEntry>
  {
    if es == [] then buffer else PushAll(es[1..], Push(es[0], buffer))
  }

  lemma PrefixOfConcat(r: seq<LogEntry>, x: seq<LogEntry>, k: nat, m: nat)
    requires k <= |x| && m <= |r| + k
    ensures (r + x[..k])[..m] == (r + x)[..m]
  {
    assert forall i :: 0 <= i < m ==> (r + x[..k])[i] == (r + x)[i];
  }

  /** Whatever arrives, the buffer holds the latest fifty entries (or all
      of them, when fewer arrived), newest first: nothing is reordered and
      only the oldest fall out. */
  lemma {:induction false} PushAllKeepsNewest(es: seq<LogEntry>, buffer: seq<LogEntry>)
    requires |buffer| <= MaxLogs
    ensures PushAll(es, buffer) == (Reverse(es) + buffer)[..Min(|es| + |buffer|, MaxLogs)]
  {
    if es != [] {
      var x := [es[0]] + buffer;
      var b := Push(es[0], buffer);
      var k := Min(|buffer| + 1, MaxLogs);
      assert b == x[..k];
      PushAllKeepsNewest(es[1..], b);
      var rev := Reverse(es[1..]);
      assert Reverse(es) == rev + [es[0]];
      assert rev + x == Reverse(es) + buffer;
      PrefixOfConcat(rev, x, k, Min(|es[1..]| + |b|, MaxLogs));
    }
  }

  /** From an empty panel, the buffer never holds more than fifty entries
      and its first entry is always the latest one. */
  lemma NewestFirst(es: seq<LogEntry>)
    requires es != []
    ensures var b := PushAll(es, []);
      |b| == Min(|es|, MaxLogs) && b[0] == es[|es| - 1]
  {
    PushAllKeepsNewest(es, []);
  }

  /** The panel renders nothing while the buffer is empty. */
  predicate Rendered(logs: seq<LogEntry>) {
    logs != []
  }

  lemma AppearsOnFirstEntry(entry: LogEntry, prev: seq<LogEntry>)
    ensures !Rendered([]) && Rendered(Push(entry, prev))
  {
  }

  /** One copied line: `[time] [TYPE] message`. */
  function CopyLine(l: LogEntry, clock: int -> string): string {
    "[" + clock(l.timestamp) + "] [" + AsciiUpper(TypeName(l.logType)) + "] " + l.message
  }

  /** `logs.map(...)`: one line per entry, in buffer order. */
  function CopyLines(logs: seq<LogEntry>, clock: int -> string): (lines: seq<string>)
    ensures |lines| == |logs|
    ensures forall i :: 0 <= i < |logs| ==> lines[i] == CopyLine(logs[i], clock)
  {
    if logs == [] then [] else [CopyLine(logs[0], clock)] + CopyLines(logs[1..], clock)
  }

  /** What `copyLogs` writes to the clipboard. */
  function CopyText(logs: seq<LogEntry>, clock: int -> string): string {
    Join(CopyLines(logs, clock), "\n")
  }

  /** The type label a copied line carries: the type's name in capitals. */
  lemma CopiedLabel(t: LogType)
    ensures AsciiUpper(TypeName(t)) == match t
      case Info => "INFO"
      case Success => "SUCCESS"
      case Error => "ERROR"
      case Warning => "WARNING"
  {
  }

  lemma UpperKeepsNoBreak(s: string)
    requires '\n' !in s
    ensures '\n' !in AsciiUpper(s)
  {
    var u := AsciiUpper(s);
    forall i | 0 <= i < |u| ensures u[i] != '\n' {
      assert s[i] in s;
    }
  }

  lemma {:induction false} LineHasNoBreak(l: LogEntry, clock: int -> string)
    requires '\n' !in l.message && '\n' !in clock(l.timestamp)
    ensures '\n' !in CopyLine(l, clock)
  {
    var name := TypeName(l.logType);
    assert '\n' !in name by {
      forall i | 0 <= i < |name| ensures name[i] != '\n' {
      }
    }
    UpperKeepsNoBreak(name);
    var a := "[" + clock(l.timestamp);
    var b := "] [" + AsciiUpper(name);
    var c := "] " + l.message;
    assert '\n' !in "[" && '\n' !in "] [" && '\n' !in "] ";
    assert '\n' !in a && '\n' !in b && '\n' !in c;
    assert CopyLine(l, clock) == a + b + c;
  }

  /** When no message and no formatted time holds a line break, the copied
      text splits back into exactly one line per entry, in buffer order. */
  lemma {:induction false} CopiedTextSplitsIntoLines(logs: seq<LogEntry>, clock: int -> string)
    requires logs != []
    requires forall i :: 0 <= i < |logs| ==> '\n' !in logs[i].message && '\n' !in clock(logs[i].timestamp)
    ensures Split(CopyText(logs, clock), '\n') == CopyLines(logs, clock)
  {
    var lines := CopyLines(logs, clock);
    forall i | 0 <= i < |lines| ensures '\n' !in lines[i] {
      LineHasNoBreak(logs[i], clock);
    }
    SplitJoin(lines, '\n');
  }

  /** The panel's state: the buffer and whether the panel is open. */
  class Panel {
    var logs: seq<LogEntry>
    var isOpen: bool

    constructor ()
      ensures logs == [] && !isOpen
    {
      logs := [];
      isOpen := false;
    }

    /** The panel's log listener. */
    method OnEntry(entry: LogEntry)
      modifies this
      ensures logs == Push(entry, old(logs))
      ensures isOpen == old(isOpen)
    {
      logs := Push(entry, logs);
    }

    method Toggle()
      modifies this
      ensures isOpen == !old(isOpen) && logs == old(logs)
    {
      isOpen := !isOpen;
    }
  }
}
