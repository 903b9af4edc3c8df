/** The memory file of each agent: folded data, a revision and a bounded history. */
module AgentMemory {
  import opened Wrappers
  import opened Json
  import opened AgentContracts

  datatype Entry = Entry(runId: string, taskId: string, updates: Document)

  datatype Memory = Memory(agentId: string, revision: int, data: Document, history: seq<Entry>)

  type Files = map<string, Memory>

  predicate IsSafe(c: char) {
    'a' <= c <= 'z' || 'A' <= c <= 'Z' || '0' <= c <= '9' || c == '-' || c == '_'
  }

  /** The file name of an agent: characters that are not safe become underscores. */
  function Path(agentId: string): string {
    seq(|agentId|, i requires 0 <= i < |agentId| => if IsSafe(agentId[i]) then agentId[i] else '_')
  }

  function Loaded(files: Files, agentId: string): Memory {
    if Path(agentId) in files then files[Path(agentId)] else Memory(agentId, 0, map[], [])
  }

  function LastHundred(history: seq<Entry>): seq<Entry> {
    if |history| <= 100 then history else history[|history| - 100..]
  }

  function Updated(memory: Memory, agentId: string, entry: Entry): Memory {
    Memory(agentId, memory.revision + 1, memory.data + entry.updates, LastHundred(memory.history + [entry]))
  }

  class AgentMemoryStore {
    var files: Files

    constructor (files0: Files)
      ensures files == files0
    {
      files := files0;
    }

    method Load(agentId: string) returns (r: Memory)
      ensures r == Loaded(files, agentId)
    {
      var path := Path(agentId);
      if path !in files {
        return Memory(agentId, 0, map[], []);
      }
      r := files[path];
    }

    method Update(agentId: string, updates: Document, runId: string, taskId: string) returns (r: Memory)
      modifies this
      ensures r == Updated(old(Loaded(files, agentId)), agentId, Entry(runId, taskId, updates))
      ensures files == old(files)[Path(agentId) := r]
    {
      var memory := Load(agentId);
      var data := memory.data + updates;
      var history := memory.history + [Entry(runId, taskId, updates)];
      r := Memory(agentId, memory.revision + 1, data, LastHundred(history));
      files := files[Path(agentId) := r];
    }
  }

  // ---------------------------------------------------------------- runs of updates

  /** One update of one agent. */
  datatype Change = Change(agentId: string, entry: Entry)

  function Applied(files: Files, change: Change): Files {
    files[Path(change.agentId) := Updated(Loaded(files, change.agentId), change.agentId, change.entry)]
  }

  function AppliedAll(files: Files, changes: seq<Change>): Files {
    if changes == [] then files
    else Applied(AppliedAll(files, changes[..|changes| - 1]), changes[|changes| - 1])
  }

  lemma {:induction false} AppliedAllAppend(files: Files, a: seq<Change>, b: seq<Change>)
    ensures AppliedAll(files, a + b) == AppliedAll(AppliedAll(files, a), b)
  {
    if b == [] {
      assert a + b == a;
    } else {
      assert (a + b)[..|a + b| - 1] == a + b[..|b| - 1];
      AppliedAllAppend(files, a, b[..|b| - 1]);
    }
  }

  /** The entries that went to one agent, in order. */
  function Own(changes: seq<Change>, agentId: string): seq<Entry> {
    if changes == [] then []
    else
      var last := changes[|changes| - 1];
      Own(changes[..|changes| - 1], agentId) + if last.agentId == agentId then [last.entry] else []
  }

  /** The entries that went into one agent's file, in order, whoever they were addressed to. */
  function FileEntries(changes: seq<Change>, agentId: string): seq<Entry> {
    if changes == [] then []
    else
      var last := changes[|changes| - 1];
      FileEntries(changes[..|changes| - 1], agentId) + if Path(last.agentId) == Path(agentId) then [last.entry] else []
  }

  /** Data after a list of entries: later values win. */
  function Folded(data: Document, entries: seq<Entry>): Document {
    if entries == [] then data
    else Folded(data, entries[..|entries| - 1]) + entries[|entries| - 1].updates
  }

  /** No other agent of the run shares this agent's file. */
  predicate OwnsFile(changes: seq<Change>, agentId: string) {
    forall c :: c in changes && Path(c.agentId) == Path(agentId) ==> c.agentId == agentId
  }

  lemma {:induction false} LastHundredAppend(history: seq<Entry>, entry: Entry)
    ensures LastHundred(LastHundred(history) + [entry]) == LastHundred(history + [entry])
  {
  }

  lemma {:induction false} FoldedMore(data: Document, entries: seq<Entry>, entry: Entry)
    ensures Folded(data, entries + [entry]) == Folded(data, entries) + entry.updates
  {
    assert (entries + [entry])[..|entries|] == entries;
  }

  /** `kept` is the end of `written`: all of it, or its last hundred entries, the newest last. */
  predicate KeepsTheEnd(kept: seq<Entry>, written: seq<Entry>) {
    && |kept| <= 100 && (|kept| < 100 ==> |kept| == |written|)
    && |kept| <= |written| && kept == written[|written| - |kept|..]
  }

  lemma {:induction false} LastHundredIsTheEnd(kept: seq<Entry>, written: seq<Entry>)
    ensures KeepsTheEnd(kept, written) <==> kept == LastHundred(written)
  {
  }

  /** What an agent finds after a run, in terms of the entries it is to remember. */
  ghost predicate Remembers(before: Memory, after: Memory, entries: seq<Entry>) {
    && after.data == Folded(before.data, entries)
    && after.revision == before.revision + |entries|
    && (entries != [] || |before.history| <= 100 ==> KeepsTheEnd(after.history, before.history + entries))
  }

  lemma {:induction false} RemembersMore(before: Memory, after: Memory, entries: seq<Entry>, agentId: string, entry: Entry)
    requires Remembers(before, after, entries) && (entries == [] ==> after.history == before.history)
    ensures Remembers(before, Updated(after, agentId, entry), entries + [entry])
  {
    var all := before.history + entries;
    FoldedMore(before.data, entries, entry);
    LastHundredIsTheEnd(after.history, all);
    LastHundredAppend(all, entry);
    assert before.history + (entries + [entry]) == all + [entry];
    assert entries == [] ==> all == before.history;
    LastHundredIsTheEnd(Updated(after, agentId, entry).history, all + [entry]);
  }

  lemma {:induction false} NothingWritten(before: Memory)
    ensures Remembers(before, before, [])
  {
    assert before.history + [] == before.history;
    LastHundredIsTheEnd(before.history, before.history + []);
  }

  lemma {:induction false} OneMoreWritten(files: Files, change: Change, agentId: string)
    ensures Loaded(Applied(files, change), agentId) ==
      if Path(change.agentId) == Path(agentId) then Updated(Loaded(files, agentId), change.agentId, change.entry) else Loaded(files, agentId)
  {
  }

  /** An agent finds the initial memory folded with all that was written to its file, counted, the last hundred kept. */
  lemma {:induction false} MemoryIsWritten(files: Files, changes: seq<Change>, agentId: string)
    ensures Remembers(Loaded(files, agentId), Loaded(AppliedAll(files, changes), agentId), FileEntries(changes, agentId))
    ensures FileEntries(changes, agentId) == [] ==> Loaded(AppliedAll(files, changes), agentId) == Loaded(files, agentId)
  {
    var before := Loaded(files, agentId);
    if changes == [] {
      NothingWritten(before);
    } else {
      var init, last := changes[..|changes| - 1], changes[|changes| - 1];
      MemoryIsWritten(files, init, agentId);
      OneMoreWritten(AppliedAll(files, init), last, agentId);
      if Path(last.agentId) == Path(agentId) {
        RemembersMore(before, Loaded(AppliedAll(files, init), agentId), FileEntries(init, agentId), last.agentId, last.entry);
      } else {
        assert FileEntries(init, agentId) + [] == FileEntries(init, agentId);
      }
    }
  }

  lemma {:induction false} OwnsFileMore(changes: seq<Change>, last: Change, agentId: string)
    ensures OwnsFile(changes + [last], agentId) <==>
      OwnsFile(changes, agentId) && (Path(last.agentId) == Path(agentId) ==> last.agentId == agentId)
  {
    forall c ensures c in changes + [last] <==> c in changes || c == last {}
  }

  /** Of what was written to the file no more is the agent's own, and all of it exactly if the agent owns the file. */
  lemma {:induction false} OwnIsAllWritten(changes: seq<Change>, agentId: string)
    ensures |Own(changes, agentId)| <= |FileEntries(changes, agentId)|
    ensures |Own(changes, agentId)| == |FileEntries(changes, agentId)| <==> OwnsFile(changes, agentId)
    ensures OwnsFile(changes, agentId) ==> Own(changes, agentId) == FileEntries(changes, agentId)
  {
    if changes != [] {
      var init, last := changes[..|changes| - 1], changes[|changes| - 1];
      assert changes == init + [last];
      OwnIsAllWritten(init, agentId);
      OwnsFileMore(init, last, agentId);
    }
  }

  /** An agent remembers its own updates and nothing else exactly if it owns its file. */
  lemma {:induction false} MemoryIsOwnUpdates(files: Files, changes: seq<Change>, agentId: string)
    ensures Remembers(Loaded(files, agentId), Loaded(AppliedAll(files, changes), agentId), Own(changes, agentId))
      <==> OwnsFile(changes, agentId)
  {
    MemoryIsWritten(files, changes, agentId);
    OwnIsAllWritten(changes, agentId);
  }

  /** The file of an agent is named by its id, an underscore in place of what is no ASCII letter, digit, hyphen or underscore. */
  lemma {:induction false} PathIsSafe(a: string, i: nat)
    requires i < |a|
    ensures |Path(a)| == |a|
    ensures Path(a)[i] == a[i] || Path(a)[i] == '_'
    ensures Path(a)[i] == a[i] <==> 'a' <= a[i] <= 'z' || 'A' <= a[i] <= 'Z' || '0' <= a[i] <= '9' || a[i] == '-' || a[i] == '_'
  {
  }

  /** Two agents share a file exactly if their ids differ at most where both have an unsafe character or an underscore. */
  lemma {:induction false} PathsMeet(a: string, b: string)
    ensures Path(a) == Path(b) <==>
      && |a| == |b|
      && forall i :: 0 <= i < |a| ==> a[i] == b[i] || ((!IsSafe(a[i]) || a[i] == '_') && (!IsSafe(b[i]) || b[i] == '_'))
  {
    if Path(a) == Path(b) {
      assert |Path(a)| == |a| && |Path(b)| == |b|;
      forall i | 0 <= i < |a| ensures a[i] == b[i] || ((!IsSafe(a[i]) || a[i] == '_') && (!IsSafe(b[i]) || b[i] == '_')) {
        assert Path(a)[i] == Path(b)[i];
      }
    }
  }

  /** The agents "a b" and "a_b" do: the second finds what only the first has written. */
  lemma {:induction false} AgentsMayShareAFile(files: Files, updates: Document)
    requires "a_b" !in files && updates != map[]
    ensures var changes := [Change("a b", Entry("run", "t", updates))];
      && !OwnsFile(changes, "a_b")
      && Own(changes, "a_b") == []
      && Loaded(files, "a_b").data == map[]
      && Loaded(AppliedAll(files, changes), "a_b").data == updates
  {
    var changes := [Change("a b", Entry("run", "t", updates))];
    assert Path("a b") == "a_b" && Path("a_b") == "a_b";
    assert changes[0] in changes;
    assert AppliedAll(files, []) == files && changes[..0] == [];
    assert Own(changes[..0], "a_b") == [];
    assert map[] + updates == updates;
  }
}
