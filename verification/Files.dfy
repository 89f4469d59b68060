/** Files under a foreign writer, and input/output that may fail. */
module Files {
  import opened Units

  type Path = nat

  /** How a replacement of a file ends; a failure may come after the new content is in place. */
  datatype Write = Done | NotWritten | WrittenThenFailed

  /** What happens at one input/output call: the files others replaced before it, and its outcome. */
  datatype Moment = Moment(foreign: map<Path, Option<Str>>, readOk: bool, write: Write)

  /** `script` holds what is still to happen; after it nothing fails and nobody else writes. */
  datatype Disk = Disk(files: map<Path, Str>, script: seq<Moment>)

  function Content(files: map<Path, Str>, p: Path): Option<Str> {
    if p in files then Some(files[p]) else None
  }

  function SetContent(files: map<Path, Str>, p: Path, c: Option<Str>): map<Path, Str> {
    if c.Some? then files[p := c.value] else files - {p}
  }

  function Overlay(files: map<Path, Str>, foreign: map<Path, Option<Str>>): map<Path, Str> {
    map k | k in files.Keys + foreign.Keys && (k in foreign ==> foreign[k].Some?) ::
      if k in foreign then foreign[k].value else files[k]
  }

  function Head(d: Disk): Moment {
    if d.script == [] then Moment(map[], true, Done) else d.script[0]
  }

  /** The files when the next call is made, and what remains of the script. */
  function Arrive(d: Disk): Disk {
    Disk(Overlay(d.files, Head(d).foreign), if d.script == [] then [] else d.script[1..])
  }

  /** The content of a file; None when reading fails. */
  function Read(d: Disk, p: Path): (Disk, Option<Option<Str>>) {
    var a := Arrive(d);
    (a, if Head(d).readOk then Some(Content(a.files, p)) else None)
  }

  /** Replacing or removing a file. */
  function Store(d: Disk, p: Path, c: Option<Str>): (Disk, bool) {
    var a := Arrive(d);
    (a.(files := if Head(d).write.NotWritten? then a.files else SetContent(a.files, p, c)), Head(d).write.Done?)
  }

  predicate Quiet(d: Disk) {
    forall m <- d.script :: m.foreign == map[]
  }

  lemma QuietArrive(d: Disk)
    requires Quiet(d)
    ensures Arrive(d).files == d.files && Quiet(Arrive(d))
  {
    if d.script != [] { assert d.script[0] in d.script; }
    assert Overlay(d.files, map[]) == d.files;
  }

  lemma QuietRead(d: Disk, p: Path)
    requires Quiet(d)
    ensures var (e, c) := Read(d, p); e.files == d.files && Quiet(e) && (c.Some? ==> c.value == Content(d.files, p))
  {
    QuietArrive(d);
  }

  lemma QuietStore(d: Disk, p: Path, c: Option<Str>)
    requires Quiet(d)
    ensures var (e, ok) := Store(d, p, c);
            && Quiet(e) && (e.files == d.files || e.files == SetContent(d.files, p, c))
            && (ok ==> e.files == SetContent(d.files, p, c))
  {
    QuietArrive(d);
  }

  lemma SetContentAt(files: map<Path, Str>, p: Path, c: Option<Str>)
    ensures Content(SetContent(files, p, c), p) == c
    ensures forall q :: q != p ==> Content(SetContent(files, p, c), q) == Content(files, q)
  {}

  lemma SameFiles(a: map<Path, Str>, b: map<Path, Str>)
    requires forall p :: Content(a, p) == Content(b, p)
    ensures a == b
  {
    forall p ensures p in a <==> p in b { assert Content(a, p) == Content(b, p); }
    forall p | p in a ensures a[p] == b[p] { assert Content(a, p) == Content(b, p); }
  }
}
