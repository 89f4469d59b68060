/** repair and its rollback, over a file that others may write and I/O that may fail. */
module SettingsRepair {
  import opened Units
  import opened JsoncGrammar
  import opened JsoncEdit
  import opened ManagedSettings
  import opened Files

  /** The document a missing file stands for. */
  const EMPTY_DOCUMENT: Str := [OPEN_BRACE, CLOSE_BRACE, LF]

  function Source(previous: Option<Str>): Str {
    if previous.None? then EMPTY_DOCUMENT else previous.value
  }

  /** The text repair wants the file to hold; None when the settings are not valid. */
  function Repaired(previous: Option<Str>, t: Target): Option<Str> {
    Render(Source(previous), t)
  }

  predicate IsUnchanged(previous: Option<Str>, t: Target) {
    previous.Some? && Repaired(previous, t) == previous
  }

  // ---------------------------------------------------------------- one rollback, over all runs

  datatype Ticket = Ticket(previous: Option<Str>, repaired: Str)

  datatype State = State(content: Option<Str>, pending: bool)

  /**
   * A foreign write, or a call of the rollback with the outcomes of its I/O; `meanwhile` is what others write after the
   * call has read the file and before it writes, if they do.
   */
  datatype Event = Foreign(content: Option<Str>) | Attempt(readOk: bool, meanwhile: Option<Option<Str>>, write: Write)
  {
    /** What others write at this event. */
    function Brings(): Option<Option<Str>> { if Foreign? then Some(content) else meanwhile }

    /** The file after that, if nobody else writes. */
    function Found(was: Option<Str>): Option<Str> { if Brings().Some? then Brings().value else was }

    predicate Undisturbed() { Attempt? && meanwhile.None? }
  }

  /** Whether the rollback gets as far as writing: it judges by what it has read. */
  predicate Writes(k: Ticket, st: State, e: Event) {
    e.Attempt? && st.pending && e.readOk && st.content == Some(k.repaired)
  }

  predicate Succeeds(k: Ticket, st: State, e: Event) {
    Writes(k, st, e) && e.write.Done?
  }

  /** Whether the rollback puts the previous content in place. */
  predicate Replaces(k: Ticket, st: State, e: Event) {
    Writes(k, st, e) && !e.write.NotWritten?
  }

  function Next(k: Ticket, st: State, e: Event): State {
    State(if Replaces(k, st, e) then k.previous else e.Found(st.content), st.pending && !Succeeds(k, st, e))
  }

  function RunAll(k: Ticket, st: State, es: seq<Event>): State
    decreases |es|
  {
    if es == [] then st else RunAll(k, Next(k, st, es[0]), es[1..])
  }

  function Successes(k: Ticket, st: State, es: seq<Event>): nat
    decreases |es|
  {
    if es == [] then 0
    else (if Succeeds(k, st, es[0]) then 1 else 0) + Successes(k, Next(k, st, es[0]), es[1..])
  }

  /** A rollback takes effect at most once, whatever others write in between. */
  lemma {:induction false} AtMostOnce(k: Ticket, st: State, es: seq<Event>)
    ensures Successes(k, st, es) <= 1 && (!st.pending ==> Successes(k, st, es) == 0)
    ensures RunAll(k, st, es).pending <==> st.pending && Successes(k, st, es) == 0
    decreases |es|
  {
    if es != [] { AtMostOnce(k, Next(k, st, es[0]), es[1..]); }
  }

  /** A rollback that is done never writes again. */
  lemma {:induction false} DoneForever(k: Ticket, st: State, es: seq<Event>)
    requires !st.pending && forall e <- es :: e.Undisturbed()
    ensures RunAll(k, st, es) == st
    decreases |es|
  {
    if es != [] {
      assert es[0] in es;
      DoneForever(k, Next(k, st, es[0]), es[1..]);
    }
  }

  /** Without foreign writes the file holds the repaired text or exactly what was there before, absence included. */
  lemma {:induction false} RollbackExact(k: Ticket, st: State, es: seq<Event>)
    requires forall e <- es :: e.Undisturbed()
    requires st.content == Some(k.repaired) || st.content == k.previous
    ensures var last := RunAll(k, st, es);
            && (last.content == Some(k.repaired) || last.content == k.previous)
            && (Successes(k, st, es) == 1 ==> last == State(k.previous, false))
    decreases |es|
  {
    if es != [] {
      assert es[0] in es;
      RollbackExact(k, Next(k, st, es[0]), es[1..]);
      if Succeeds(k, st, es[0]) {
        DoneForever(k, Next(k, st, es[0]), es[1..]);
        AtMostOnce(k, Next(k, st, es[0]), es[1..]);
      }
    }
  }

  /** A content that is not the repaired text survives every undisturbed attempt. */
  lemma {:induction false} ForeignKept(k: Ticket, st: State, es: seq<Event>)
    requires st.content != Some(k.repaired) && forall e <- es :: e.Undisturbed()
    ensures RunAll(k, st, es) == st
    decreases |es|
  {
    if es != [] {
      assert es[0] in es;
      ForeignKept(k, Next(k, st, es[0]), es[1..]);
    }
  }

  /** The previous content stays, even if it should equal the repaired text. */
  lemma {:induction false} PreviousKept(k: Ticket, st: State, es: seq<Event>)
    requires st.content == k.previous && forall e <- es :: e.Undisturbed()
    ensures RunAll(k, st, es).content == k.previous
    decreases |es|
  {
    if es != [] {
      assert es[0] in es;
      PreviousKept(k, Next(k, st, es[0]), es[1..]);
    }
  }

  lemma {:induction false} RunJoin(k: Ticket, st: State, a: seq<Event>, b: seq<Event>)
    ensures RunAll(k, st, a + b) == RunAll(k, RunAll(k, st, a), b)
    decreases |a|
  {
    if a == [] {
      assert a + b == b;
    } else {
      assert (a + b)[0] == a[0] && (a + b)[1..] == a[1..] + b;
      RunJoin(k, Next(k, st, a[0]), a[1..], b);
    }
  }

  /**
   * In every run the last content others wrote, unless it is the repaired text, is there at the end if and only if it did
   * not come between an attempt's check and its write; then the previous content is there.
   */
  lemma LastForeign(k: Ticket, st: State, es: seq<Event>, i: nat)
    requires i < |es| && es[i].Brings().Some? && es[i].Brings().value != Some(k.repaired)
    requires forall j :: i < j < |es| ==> es[j].Brings().None?
    ensures RunAll(k, st, es).content
         == if Replaces(k, RunAll(k, st, es[..i]), es[i]) then k.previous else es[i].Brings().value
  {
    hide Replaces;
    var at := RunAll(k, st, es[..i]);
    var after := Next(k, at, es[i]);
    var rest := es[i + 1..];
    assert es[i..][1..] == rest;
    assert es[..i] + es[i..] == es;
    RunJoin(k, st, es[..i], es[i..]);
    forall e | e in rest ensures e.Undisturbed() {
      var j :| 0 <= j < |rest| && rest[j] == e;
      assert es[i + 1 + j].Brings().None?;
    }
    if Replaces(k, at, es[i]) { PreviousKept(k, after, rest); } else { ForeignKept(k, after, rest); }
  }

  /** The file when only others write. */
  function Brought(was: Option<Str>, es: seq<Event>): Option<Str> {
    if es == [] then was
    else if es[|es| - 1].Brings().Some? then es[|es| - 1].Brings().value
    else Brought(was, es[..|es| - 1])
  }

  /** Attempts that cannot read the file, or whose writes do not happen, leave it to the others, and the rollback pending. */
  lemma {:induction false} WritesNothing(k: Ticket, st: State, es: seq<Event>)
    requires forall e <- es :: e.Attempt? ==> !e.readOk || e.write.NotWritten?
    ensures RunAll(k, st, es) == State(Brought(st.content, es), st.pending)
    decreases |es|
  {
    if es != [] {
      var n := |es| - 1;
      WritesNothing(k, st, es[..n]);
      RunJoin(k, st, es[..n], es[n..]);
      assert es[..n] + es[n..] == es && es[n..] == [es[n]] && es[n] in es;
      var at := RunAll(k, st, es[..n]);
      assert RunAll(k, at, [es[n]]) == RunAll(k, Next(k, at, es[n]), [es[n]][1..]) == Next(k, at, es[n]);
    }
  }

  /** An attempt that reads the repaired text and writes puts back the previous content, for good once it has reported so. */
  lemma TakenAt(k: Ticket, st: State, es: seq<Event>, i: nat)
    requires i < |es| && RunAll(k, st, es[..i]) == State(Some(k.repaired), true)
    requires es[i].Attempt? && es[i].readOk && !es[i].write.NotWritten?
    requires forall j :: i < j < |es| ==> es[j].Undisturbed()
    ensures RunAll(k, st, es).content == k.previous
    ensures es[i].write.Done? ==> !RunAll(k, st, es).pending
  {
    var at := RunAll(k, st, es[..i]);
    var after := Next(k, at, es[i]);
    var rest := es[i + 1..];
    assert es[i..][1..] == rest && es[..i] + es[i..] == es;
    RunJoin(k, st, es[..i], es[i..]);
    PreviousKept(k, after, rest);
    AtMostOnce(k, after, rest);
  }

  // ---------------------------------------------------------------- the operations

  class SettingsFile {
    var content: Option<Str>

    constructor (initial: Option<Str>)
      ensures content == initial
    {
      content := initial;
    }

    /** What others write, if they do. */
    method Disturb(text: Option<Option<Str>>)
      modifies this
      ensures content == if text.Some? then text.value else old(content)
    {
      if text.Some? { content := text.value; }
    }

    /** atomicWriteFile, or rm for None. */
    method Replace(text: Option<Str>, write: Write) returns (ok: bool)
      modifies this
      ensures content == (if write.NotWritten? then old(content) else text)
      ensures ok == write.Done?
    {
      if !write.NotWritten? { content := text; }
      ok := write.Done?;
    }
  }

  datatype RollbackResult = AlreadyDone | RolledBack | ReadFailed | ChangedSince | WriteFailed

  class Rollback {
    const file: SettingsFile
    const ticket: Ticket
    var pending: bool

    constructor (file: SettingsFile, ticket: Ticket)
      ensures this.file == file && this.ticket == ticket && pending
    {
      this.file, this.ticket, pending := file, ticket, true;
    }

    method Apply(readOk: bool, meanwhile: Option<Option<Str>>, write: Write) returns (r: RollbackResult)
      modifies this`pending, file
      ensures State(file.content, pending) == Next(ticket, old(State(file.content, pending)), Attempt(readOk, meanwhile, write))
      ensures r.AlreadyDone? <==> !old(pending)
      ensures r.RolledBack? <==> Succeeds(ticket, old(State(file.content, pending)), Attempt(readOk, meanwhile, write))
      ensures r.ChangedSince? <==> old(pending) && readOk && old(file.content) != Some(ticket.repaired)
      ensures r.ReadFailed? <==> old(pending) && !readOk
    {
      var current := file.content;
      file.Disturb(meanwhile);
      if !pending { return AlreadyDone; }
      if !readOk { return ReadFailed; }
      if current != Some(ticket.repaired) { return ChangedSince; }
      var ok := file.Replace(ticket.previous, write);
      if !ok { return WriteFailed; }
      pending := false;
      return RolledBack;
    }
  }

  datatype RepairResult = RepairReadFailed | Invalid | NoChange | RepairWriteFailed | Changed

  /** ClaudeVscodeConfig: operations run one at a time. */
  class VscodeConfig {
    const file: SettingsFile

    constructor (file: SettingsFile)
      ensures this.file == file
    {
      this.file := file;
    }

    /**
     * The write happens only when the text read is to change or the file was missing; only then there is a rollback, to
     * the text read. What others write between the read and the write is there afterwards if and only if nothing is
     * written.
     */
    method Repair(t: Target, readOk: bool, meanwhile: Option<Option<Str>>, write: Write)
      returns (r: RepairResult, rollback: Rollback?)
      modifies file
      ensures r.RepairReadFailed? <==> !readOk
      ensures r.Invalid? <==> readOk && Repaired(old(file.content), t).None?
      ensures r.NoChange? <==> readOk && IsUnchanged(old(file.content), t)
      ensures var tried := r.Changed? || r.RepairWriteFailed?;
              file.content == if tried && !write.NotWritten? then Repaired(old(file.content), t)
                              else if meanwhile.Some? then meanwhile.value else old(file.content)
      ensures r.Changed? || r.RepairWriteFailed? ==> (r.Changed? <==> write.Done?) && Repaired(old(file.content), t).Some?
      ensures r.Changed? <==> rollback != null
      ensures rollback != null ==>
                && fresh(rollback) && rollback.file == file && rollback.pending
                && rollback.ticket == Ticket(old(file.content), Repaired(old(file.content), t).value)
    {
      rollback := null;
      var previous := file.content;
      file.Disturb(meanwhile);
      if !readOk { return RepairReadFailed, null; }
      var repaired := Render(Source(previous), t);
      if repaired.None? { return Invalid, null; }
      if previous.Some? && repaired.value == previous.value { return NoChange, null; }
      var ok := file.Replace(repaired, write);
      if !ok { return RepairWriteFailed, null; }
      r := Changed;
      rollback := new Rollback(file, Ticket(previous, repaired.value));
    }
  }

  // ---------------------------------------------------------------- what a repair achieves

  lemma EmptyDocument()
    ensures ReadManaged(EMPTY_DOCUMENT).Some? && JsonIndented(EMPTY_DOCUMENT) && Stable(EMPTY_DOCUMENT)
  {
    hide ParseJsonc, ReadDoc, Skip;
    var d := Doc([], [], [], [LF]);
    assert DocText(d) == EMPTY_DOCUMENT;
    EmptyGood();
    WriteThenRead(d);
    assert [] + [SPACE, SPACE] == TWO_SPACES;
  }

  lemma EmptyGood()
    ensures GoodDoc(Doc([], [], [], [LF]))
  {
    assert [LF][1..] == [];
    assert Skip([LF]) == Shift(1, Skip([]));
  }

  /** A missing file is always repaired to settings that match and stay as they are. */
  lemma RepairMissing(t: Target)
    ensures Repaired(None, t).Some?
    ensures var r := Repaired(None, t); Match(r.value, t) && IsUnchanged(r, t)
  {
    hide Render, Match, ReadManaged, JsonIndented, Stable;
    EmptyDocument();
    RenderMatches(EMPTY_DOCUMENT, t);
    RenderTwice(EMPTY_DOCUMENT, t);
  }

  /**
   * After a repair, validation passes if and only if the environment array is indented with JSON whitespace, and
   * the next repair reports no change if and only if, besides, the first one settled.
   */
  lemma RepairTwice(previous: Option<Str>, t: Target)
    requires Repaired(previous, t).Some?
    ensures var r := Repaired(previous, t);
            && (Match(r.value, t) <==> JsonIndented(Source(previous)))
            && (IsUnchanged(r, t) <==> JsonIndented(Source(previous)) && Stable(Source(previous)))
            && (!JsonIndented(Source(previous)) ==> Repaired(r, t).None?)
  {
    hide Render, Match, ReadManaged, JsonIndented, Stable;
    RenderMatches(Source(previous), t);
    RenderTwice(Source(previous), t);
    RenderMatches(Repaired(previous, t).value, t);
  }

  /** Settings that a repair leaves alone match; a repair never declares a mismatch unchanged. */
  lemma UnchangedMatches(previous: Option<Str>, t: Target)
    requires IsUnchanged(previous, t)
    ensures Match(previous.value, t)
  {
    hide Render, Match, ReadManaged, JsonIndented, Stable;
    RenderMatches(previous.value, t);
    RenderTwice(previous.value, t);
  }
}
