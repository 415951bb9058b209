/** Resumable transfer of one file: internal/filemanager/transfer.go and the byte counting of state.go. */
module Transfers {
  import opened Wrappers
  import opened Bytes

  /** Times are nanoseconds. */
  datatype Info = Info(size: nat, modTime: int)

  datatype Task = Task(total: nat, sourceModTime: int, overwrite: bool)

  /** What a transfer works on besides its source: the partial file and the destination. */
  datatype Disk = Disk(temp: Option<seq<byte>>, destination: Option<seq<byte>>)

  datatype Outcome = Done | SourceChanged | Stopped | Failed | Exists

  /** How far the world lets one attempt come: what succeeds, how many bytes pass, and where it is cut off. */
  datatype Faults =
    | Down(opens: bool, resizes: bool, arrived: nat, breaks: bool, syncs: bool, renames: bool, removes: bool,
           renamesThen: bool)
    | Up(seen: bool, removes: bool, opens: bool, starts: bool, handed: nat, arrived: nat, breaks: bool,
         seenLast: bool, begins: bool, moves: bool, heard: bool)

  /** Only whole seconds are compared. */
  function UnixSeconds(t: int): int {
    t / 1_000_000_000
  }

  predicate Matches(task: Task, info: Info) {
    info.size == task.total && UnixSeconds(info.modTime) == UnixSeconds(task.sourceModTime)
  }

  /** What an attempt keeps of the partial file: all of it, unless it is longer than the source. */
  function Kept(temp: Option<seq<byte>>, total: nat): (b: seq<byte>)
    ensures |b| <= total
  {
    if temp.Some? && |temp.value| <= total then temp.value else []
  }

  /** tail -c +N, and a seek: the source from an offset on. */
  function From(content: seq<byte>, offset: nat): (b: seq<byte>) {
    if offset <= |content| then content[offset..] else []
  }

  /** The partial file after k bytes of an attempt that kept `base`. */
  function Grown(base: seq<byte>, content: seq<byte>, k: nat): (b: seq<byte>)
    requires k <= |From(content, |base|)|
  {
    base + From(content, |base|)[..k]
  }

  predicate GrownTo(base: seq<byte>, content: seq<byte>, k: nat, b: seq<byte>) {
    k <= |From(content, |base|)| && b == Grown(base, content, k)
  }

  /** b is base with some of the source after it. */
  ghost predicate Grows(base: seq<byte>, content: seq<byte>, b: seq<byte>) {
    exists k: nat :: GrownTo(base, content, k, b)
  }

  /** What one attempt may do to the disk, base being what it keeps: on success the destination has exactly the bytes
      asked for; a failure leaves the partial file as it was, removed or grown, and takes the destination away only to
      replace it by the whole. */
  ghost predicate Attempt(task: Task, content: seq<byte>, base: seq<byte>, before: Disk, after: Disk, done: bool) {
    if done then
      after.temp.None? && after.destination.Some? && |after.destination.value| == task.total
      && Grows(base, content, after.destination.value)
    else
      && (after.temp.None? || after.temp == before.temp || Grows(base, content, after.temp.value))
      && (after.destination == before.destination || (task.overwrite && after.destination.None?)
          || (after.destination.Some? && |after.destination.value| == task.total
              && Grows(base, content, after.destination.value)))
  }

  /** progressWriter: a local file that counts what was written to it. */
  class ProgressWriter {
    var file: seq<byte>
    var done: nat
    var reported: nat

    constructor (content: seq<byte>)
      ensures file == content && done == |content| && reported == |content|
    {
      file, done, reported := content, |content|, |content|;
    }

    /** A write may be short, and then fails; the count follows the file, and a failure is reported at once. */
    method Write(data: seq<byte>, accepted: nat) returns (n: nat, failed: bool)
      requires done == |file|
      modifies this
      ensures n == (if accepted <= |data| then accepted else |data|) && (n < |data| ==> failed)
      ensures file == old(file) + data[..n] && done == |file|
      ensures reported == old(reported) || reported == done
      ensures failed ==> reported == done
    {
      n := if accepted <= |data| then accepted else |data|;
      failed := *;
      failed := failed || n < |data|;
      file := file + data[..n];
      done := done + n;
      var due: bool := *;
      if due || failed {
        reported := done;
      }
    }
  }

  function Min(a: nat, b: nat): nat {
    if a <= b then a else b
  }

  /** exec of the reading script: its output in pieces of any size, as far as it comes. */
  method Receive(w: ProgressWriter, content: seq<byte>, arrived: nat)
    requires w.done == |w.file|
    modifies w
    ensures w.done == |w.file|
    ensures var output := From(content, |old(w.file)|); w.file == old(w.file) + output[..Min(arrived, |output|)]
  {
    var output := From(content, w.done);
    ghost var base := w.file;
    var sent, end := 0, Min(arrived, |output|);
    assert base + output[..0] == base;
    while sent < end
      invariant sent <= end && w.done == |w.file| && w.file == base + output[..sent]
    {
      var n: nat :| 0 < n <= |output| - sent;
      var written, failed := w.Write(output[sent..sent + n], end - sent);
      assert output[..sent + written] == output[..sent] + output[sent..sent + n][..written];
      sent := sent + written;
    }
  }

  /** What a download does to the disk. */
  function Downloaded(task: Task, stat: Option<Info>, content: seq<byte>, d: Disk, f: Faults): (r: (Disk, Outcome))
    requires f.Down?
  {
    if stat.None? then (d, Failed)
    else if !Matches(task, stat.value) then (d, SourceChanged)
    else if !f.opens then (d, Failed)
    else
      var found := if d.temp.Some? then d.temp.value else [];
      if |found| > task.total && !f.resizes then (d.(temp := Some(found)), Failed)
      else
        var base := if |found| > task.total then [] else found;
        var output := From(content, |base|);
        var file := base + output[..Min(f.arrived, |output|)];
        var grown := d.(temp := Some(file));
        if f.breaks then (grown, Failed)
        else if |file| != task.total then (grown, Stopped)
        else if !f.syncs then (grown, Failed)
        else if f.renames then (Disk(None, Some(file)), Done)
        else if !task.overwrite || !f.removes then (grown, Failed)
        else if f.renamesThen then (Disk(None, Some(file)), Done)
        else (Disk(Some(file), None), Failed)
  }

  /** The final move of an upload, which may be cut off anywhere, even after it is done. */
  function Moved(overwrite: bool, file: seq<byte>, destination: Option<seq<byte>>, f: Faults): (r: (Disk, Outcome))
    requires f.Up?
  {
    if !f.begins then (Disk(Some(file), destination), Failed)
    else if !f.moves then (Disk(Some(file), if overwrite then None else destination), Failed)
    else (Disk(None, Some(file)), if f.heard then Done else Failed)
  }

  /** What an upload does to the remote disk: `seen` says whether the partial file could be looked at, `seenLast`
      whether the destination could. */
  function Uploaded(task: Task, stat: Option<Info>, content: seq<byte>, d: Disk, f: Faults): (r: (Disk, Outcome))
    requires f.Up?
  {
    if stat.None? then (d, Failed)
    else if !Matches(task, stat.value) then (d, SourceChanged)
    else
      var found := if f.seen && d.temp.Some? then d.temp.value else [];
      var cleared := if |found| > task.total && f.removes then d.(temp := None) else d;
      if !f.opens || !f.starts then (cleared, Failed)
      else
        var base := if |found| > task.total then [] else found;
        var input := From(content, |base|);
        var handed := Min(f.handed, |input|);
        var arrived := Min(f.arrived, handed);
        var file := base + input[..arrived];
        var grown := d.(temp := Some(file));
        if f.breaks || arrived < handed then (grown, Failed)
        else if |base| + handed != task.total then (grown, Stopped)
        else if !task.overwrite && f.seenLast && d.destination.Some? then (grown, Exists)
        else Moved(task.overwrite, file, d.destination, f)
  }

  /** A download's source passes its stat and every byte of it that is missing arrives and is kept. */
  predicate DownloadComplete(task: Task, stat: Option<Info>, content: seq<byte>, temp: Option<seq<byte>>, f: Faults)
    requires f.Down?
  {
    && stat.Some? && Matches(task, stat.value) && f.opens
    && (temp.Some? && |temp.value| > task.total ==> f.resizes)
    && !f.breaks && f.syncs
    && |Kept(temp, task.total)| + Min(f.arrived, |From(content, |Kept(temp, task.total)|)|) == task.total
  }

  /** The same of an upload, with what it saw of the partial file. */
  predicate UploadComplete(task: Task, stat: Option<Info>, content: seq<byte>, temp: Option<seq<byte>>, f: Faults)
    requires f.Up?
  {
    var base := if f.seen then Kept(temp, task.total) else [];
    var handed := Min(f.handed, |From(content, |base|)|);
    && stat.Some? && Matches(task, stat.value) && f.opens && f.starts
    && !f.breaks && f.arrived >= handed && |base| + handed == task.total
  }

  /** A destination an upload must not touch: one that is there and can be seen, without leave to overwrite. */
  predicate Protected(task: Task, destination: Option<seq<byte>>, f: Faults)
    requires f.Up?
  {
    !task.overwrite && f.seenLast && destination.Some?
  }

  /** What the answer of an upload means. */
  lemma UploadAnswers(task: Task, stat: Option<Info>, content: seq<byte>, d: Disk, f: Faults)
    requires f.Up?
    ensures var (after, outcome) := Uploaded(task, stat, content, d, f);
            var complete := UploadComplete(task, stat, content, d.temp, f);
            var guarded := Protected(task, d.destination, f);
            && (outcome == Done <==> complete && !guarded && f.begins && f.moves && f.heard)
            && (outcome == Exists <==> complete && guarded)
            && (outcome == Exists ==> after.temp.Some? && |after.temp.value| == task.total)
            && (outcome == SourceChanged <==> stat.Some? && !Matches(task, stat.value))
            && (guarded ==> after.destination == d.destination)
  {
  }

  class Transfer {
    var temp: Option<seq<byte>>
    var destination: Option<seq<byte>>

    function State(): Disk
      reads this
    {
      Disk(temp, destination)
    }

    constructor (disk: Disk)
      ensures State() == disk
    {
      temp, destination := disk.temp, disk.destination;
    }

    /** download: `content` is what the source holds while it is read. */
    method Download(task: Task, stat: Option<Info>, content: seq<byte>, f: Faults) returns (outcome: Outcome)
      requires f.Down?
      modifies this
      ensures (State(), outcome) == Downloaded(task, stat, content, old(State()), f)
      ensures outcome == Done <==>
                DownloadComplete(task, stat, content, old(temp), f)
                && (f.renames || (task.overwrite && f.removes && f.renamesThen))
      ensures outcome == SourceChanged <==> stat.Some? && !Matches(task, stat.value)
      ensures outcome != Done ==>
                destination == old(destination)
                || (task.overwrite && destination == None && temp.Some? && |temp.value| == task.total)
    {
      if stat.None? {
        return Failed;
      }
      if !Matches(task, stat.value) {
        return SourceChanged;
      }
      if !f.opens {
        return Failed;
      }
      var current := if temp.Some? then temp.value else [];
      temp := Some(current);
      if |current| > task.total {
        if !f.resizes {
          return Failed;
        }
        current := [];
      }
      var writer := new ProgressWriter(current);
      Receive(writer, content, f.arrived);
      temp := Some(writer.file);
      if f.breaks {
        return Failed;
      }
      if writer.done != task.total {
        return Stopped;
      }
      if !f.syncs {
        return Failed;
      }
      var renamed := f.renames;
      if !renamed {
        if !task.overwrite {
          return Failed;
        }
        if !f.removes {
          return Failed;
        }
        destination := None;
        renamed := f.renamesThen;
        if !renamed {
          return Failed;
        }
      }
      destination, temp := temp, None;
      return Done;
    }

    /** upload. */
    method Upload(task: Task, stat: Option<Info>, content: seq<byte>, f: Faults) returns (outcome: Outcome)
      requires f.Up?
      modifies this
      ensures (State(), outcome) == Uploaded(task, stat, content, old(State()), f)
      ensures outcome == Done <==>
                UploadComplete(task, stat, content, old(temp), f) && !Protected(task, old(destination), f)
                && f.begins && f.moves && f.heard
      ensures outcome == Exists <==>
                UploadComplete(task, stat, content, old(temp), f) && Protected(task, old(destination), f)
      ensures outcome == Exists ==> temp.Some? && |temp.value| == task.total
      ensures outcome == SourceChanged <==> stat.Some? && !Matches(task, stat.value)
      ensures Protected(task, old(destination), f) ==> destination == old(destination)
    {
      UploadAnswers(task, stat, content, State(), f);
      if stat.None? {
        return Failed;
      }
      if !Matches(task, stat.value) {
        return SourceChanged;
      }
      var offset := if f.seen && temp.Some? then |temp.value| else 0;
      if offset > task.total {
        if f.removes {
          temp := None;
        }
        offset := 0;
      }
      if !f.opens {
        return Failed;
      }
      var broken, done := Send(offset, content, f);
      if broken {
        return Failed;
      }
      if done != task.total {
        return Stopped;
      }
      if !task.overwrite && f.seenLast && destination.Some? {
        return Exists;
      }
      outcome := Finalize(task.overwrite, f);
    }

    /** The shell's redirection: `>>` after an offset, `>` from the start. What the reader handed out is counted; all
        of it has arrived only if the command succeeds. */
    method Send(offset: nat, content: seq<byte>, f: Faults) returns (broken: bool, done: nat)
      requires f.Up? && (offset > 0 ==> temp.Some? && |temp.value| == offset)
      modifies this`temp
      ensures !f.starts ==> broken && temp == old(temp)
      ensures f.starts ==>
                var base := if offset > 0 then old(temp).value else [];
                var input := From(content, offset);
                var handed := Min(f.handed, |input|);
                && temp == Some(base + input[..Min(f.arrived, handed)]) && done == offset + handed
                && broken == (f.breaks || Min(f.arrived, handed) < handed)
    {
      if !f.starts {
        return true, offset;
      }
      var input := From(content, offset);
      var handed := Min(f.handed, |input|);
      var arrived := Min(f.arrived, handed);
      var kept := if offset > 0 then temp.value else [];
      temp := Some(kept + input[..arrived]);
      done := offset + handed;
      broken := f.breaks || arrived < handed;
    }

    method Finalize(overwrite: bool, f: Faults) returns (outcome: Outcome)
      requires f.Up? && temp.Some?
      modifies this
      ensures (State(), outcome) == Moved(overwrite, old(temp).value, old(destination), f)
    {
      if !f.begins {
        return Failed;
      }
      if overwrite {
        destination := None;
      }
      if !f.moves {
        return Failed;
      }
      destination, temp := temp, None;
      outcome := if f.heard then Done else Failed;
    }
  }

  /** A download is an attempt that keeps what it finds. */
  lemma DownloadIsAttempt(task: Task, info: Info, content: seq<byte>, d: Disk, f: Faults)
    requires f.Down?
    ensures var (after, outcome) := Downloaded(task, Some(info), content, d, f);
            Attempt(task, content, Kept(d.temp, task.total), d, after, outcome == Done)
  {
    var base := Kept(d.temp, task.total);
    var k := Min(f.arrived, |From(content, |base|)|);
    assert GrownTo(base, content, k, Grown(base, content, k));
    assert GrownTo(base, content, 0, base);
  }

  /** So is an upload, of what it saw. */
  lemma UploadIsAttempt(task: Task, info: Info, content: seq<byte>, d: Disk, f: Faults)
    requires f.Up?
    ensures var (after, outcome) := Uploaded(task, Some(info), content, d, f);
            Attempt(task, content, if f.seen then Kept(d.temp, task.total) else [], d, after, outcome == Done)
  {
    var base := if f.seen then Kept(d.temp, task.total) else [];
    var k := Min(f.arrived, Min(f.handed, |From(content, |base|)|));
    assert GrownTo(base, content, k, Grown(base, content, k));
  }

  // ---- single attempts ----

  /** A partial file that belongs to this source, or one so long that the next attempt drops it. */
  predicate Fits(temp: Option<seq<byte>>, source: seq<byte>) {
    temp.None? || temp.value <= source || |temp.value| > |source|
  }

  /** One is a start of the other. */
  predicate Agree(content: seq<byte>, source: seq<byte>) {
    content <= source || source <= content
  }

  lemma GrowthFits(base: seq<byte>, content: seq<byte>, source: seq<byte>, b: seq<byte>)
    requires base <= source && Agree(content, source) && Grows(base, content, b)
    ensures Agree(b, source) && (|b| == |source| ==> b == source)
  {
    var k: nat :| GrownTo(base, content, k, b);
    if |base| <= |content| {
      assert content == base + content[|base|..];
      assert b == content[..|base| + k];
    }
  }

  /** One attempt that reads what agrees with the source: the partial file stays a prefix of the source or grows past
      it, and success means the destination is the source. */
  lemma AttemptFits(task: Task, source: seq<byte>, content: seq<byte>, base: seq<byte>, before: Disk, after: Disk,
                    done: bool)
    requires |source| == task.total && Fits(before.temp, source) && Agree(content, source)
    requires base == Kept(before.temp, task.total) || base == []
    requires Attempt(task, content, base, before, after, done)
    ensures Fits(after.temp, source)
    ensures done ==> after.destination == Some(source) && after.temp == None
    ensures after.destination == before.destination || after.destination == None || after.destination == Some(source)
  {
    assert base <= source;
    forall b | Grows(base, content, b) ensures Agree(b, source) && (|b| == |source| ==> b == source) {
      GrowthFits(base, content, source, b);
    }
  }

  // ---- what attempts meet ----

  /** What an attempt meets: what its stat says, and what it is given to read. They are taken one after the other, so
      they may be of different sources. */
  datatype Meeting = Meeting(info: Info, content: seq<byte>)

  /** A source that has not changed between the two. */
  predicate Proper(v: Meeting) {
    |v.content| == v.info.size
  }

  datatype Try = Try(v: Meeting, statted: bool, f: Faults)

  function Made(task: Task, d: Disk, t: Try): (r: (Disk, Outcome)) {
    var stat := if t.statted then Some(t.v.info) else None;
    if t.f.Down? then Downloaded(task, stat, t.v.content, d, t.f) else Uploaded(task, stat, t.v.content, d, t.f)
  }

  /** Attempts one after the other: where the disk is left, and what the last one reports. */
  function After(task: Task, d: Disk, tries: seq<Try>): (r: (Disk, Outcome))
    decreases |tries|
  {
    if tries == [] then (d, Failed)
    else if |tries| == 1 then Made(task, d, tries[0])
    else After(task, Made(task, d, tries[0]).0, tries[1..])
  }

  /** Whatever is read after a stat that passes agrees with the source: it was cut short, or added to, or neither. */
  ghost predicate Agreeing(task: Task, meetings: set<Meeting>, source: seq<byte>) {
    forall v :: v in meetings && Matches(task, v.info) ==> Agree(v.content, source)
  }

  /** Every version of the source that passes for the task's has the same content. */
  ghost predicate Identified(task: Task, versions: set<Meeting>, source: seq<byte>) {
    forall v :: v in versions && Matches(task, v.info) ==> v.content == source
  }

  /** Downloads only, or uploads only, of these meetings. */
  predicate TriesOf(meetings: set<Meeting>, up: bool, tries: seq<Try>) {
    forall i :: 0 <= i < |tries| ==> tries[i].v in meetings && tries[i].f.Up? == up
  }

  lemma MadeFits(task: Task, source: seq<byte>, d: Disk, t: Try)
    requires Matches(task, t.v.info) ==> Agree(t.v.content, source)
    requires |source| == task.total && Fits(d.temp, source)
    ensures var (after, outcome) := Made(task, d, t);
            Fits(after.temp, source) && (outcome == Done ==> after.destination == Some(source))
  {
    if t.statted && Matches(task, t.v.info) {
      var (after, outcome) := Made(task, d, t);
      if t.f.Down? {
        DownloadIsAttempt(task, t.v.info, t.v.content, d, t.f);
        AttemptFits(task, source, t.v.content, Kept(d.temp, task.total), d, after, outcome == Done);
      } else {
        UploadIsAttempt(task, t.v.info, t.v.content, d, t.f);
        AttemptFits(task, source, t.v.content, if t.f.seen then Kept(d.temp, task.total) else [], d, after,
                    outcome == Done);
      }
    }
  }

  /** When all that is read after a passing stat agrees with the source, any sequence of attempts, however each is cut
      off, keeps the partial file a prefix of the source or longer than it, to be dropped, and the attempt that reports
      success leaves the source at the destination. */
  lemma {:induction false} ResumesCorrectly(task: Task, meetings: set<Meeting>, source: seq<byte>, d: Disk, up: bool,
                                            tries: seq<Try>)
    requires Agreeing(task, meetings, source) && |source| == task.total && TriesOf(meetings, up, tries)
    requires Fits(d.temp, source)
    ensures var (after, outcome) := After(task, d, tries);
            Fits(after.temp, source) && (outcome == Done ==> after.destination == Some(source))
    decreases |tries|
  {
    if tries != [] {
      assert tries[0].v in meetings;
      MadeFits(task, source, d, tries[0]);
      if |tries| > 1 {
        ResumesCorrectly(task, meetings, source, Made(task, d, tries[0]).0, up, tries[1..]);
      }
    }
  }

  lemma {:induction false} NoneDone(task: Task, d: Disk, tries: seq<Try>)
    requires forall i :: 0 <= i < |tries| ==> !Matches(task, tries[i].v.info)
    ensures After(task, d, tries).1 != Done
    decreases |tries|
  {
    if |tries| > 1 {
      NoneDone(task, Made(task, d, tries[0]).0, tries[1..]);
    }
  }

  /** Only uploads that can see the destination when they come to it. */
  predicate Seeing(tries: seq<Try>) {
    forall i :: 0 <= i < |tries| ==> tries[i].f.Up? && tries[i].f.seenLast
  }

  /** Without leave to overwrite, no sequence of such uploads changes a destination that is there, and none reports
      success. */
  lemma {:induction false} DestinationProtected(task: Task, d: Disk, tries: seq<Try>)
    requires !task.overwrite && d.destination.Some? && Seeing(tries)
    ensures After(task, d, tries).0.destination == d.destination && After(task, d, tries).1 != Done
    decreases |tries|
  {
    if |tries| == 1 {
      MadeProtected(task, d, tries[0]);
    } else if |tries| > 1 {
      MadeProtected(task, d, tries[0]);
      DestinationProtected(task, Made(task, d, tries[0]).0, tries[1..]);
    }
  }

  lemma MadeProtected(task: Task, d: Disk, t: Try)
    requires !task.overwrite && d.destination.Some? && t.f.Up? && t.f.seenLast
    ensures Made(task, d, t).0.destination == d.destination && Made(task, d, t).1 != Done
  {
  }

  /** Starting without a partial file, success leaves the source. */
  ghost predicate Delivers(task: Task, meetings: set<Meeting>, source: seq<byte>, up: bool, d: Disk, tries: seq<Try>) {
    TriesOf(meetings, up, tries) && d.temp.None? && After(task, d, tries).1 == Done ==>
      After(task, d, tries).0.destination == Some(source)
  }

  /** An attempt nothing disturbs, on its first n bytes; a stop is a break after them. */
  function Smooth(up: bool, n: nat, stops: bool): (f: Faults)
    ensures f.Up? == up
  {
    if up then Up(true, true, true, true, n, n, stops, false, true, true, true)
    else Down(true, true, n, stops, true, true, true, true)
  }

  lemma SmoothLast(task: Task, v: Meeting, up: bool, base: seq<byte>)
    requires Proper(v) && Matches(task, v.info) && |base| <= task.total
    ensures var t := Try(v, true, Smooth(up, task.total, false));
            Made(task, Disk(Some(base), None), t) == (Disk(None, Some(base + v.content[|base|..])), Done)
    ensures var t := Try(v, true, Smooth(up, task.total, false));
            Made(task, Disk(None, None), t) == (Disk(None, Some(v.content)), Done)
  {
    assert From(v.content, |base|)[..task.total - |base|] == v.content[|base|..];
    assert [] + From(v.content, 0)[..task.total] == v.content;
  }

  lemma SmoothFirst(task: Task, v: Meeting, up: bool, k: nat)
    requires Matches(task, v.info) && k <= task.total && k <= |v.content|
    ensures var t := Try(v, true, Smooth(up, k, true));
            Made(task, Disk(None, None), t) == (Disk(Some(v.content[..k]), None), Failed)
  {
    assert [] + From(v.content, 0)[..k] == v.content[..k];
  }

  /** Every sequence of attempts on these meetings that reports success leaves the source. */
  ghost predicate AlwaysDelivers(task: Task, meetings: set<Meeting>, source: seq<byte>, up: bool) {
    forall d: Disk, tries: seq<Try> :: Delivers(task, meetings, source, up, d, tries)
  }

  lemma AgreeingDelivers(task: Task, meetings: set<Meeting>, source: seq<byte>, up: bool)
    requires |source| == task.total && Agreeing(task, meetings, source)
    ensures AlwaysDelivers(task, meetings, source, up)
  {
    forall d: Disk, tries: seq<Try> ensures Delivers(task, meetings, source, up, d, tries) {
      if TriesOf(meetings, up, tries) && d.temp.None? {
        ResumesCorrectly(task, meetings, source, d, up, tries);
      }
    }
  }

  /** Where two contents that do not agree first differ. */
  lemma {:induction false} FirstDifference(a: seq<byte>, b: seq<byte>) returns (p: nat)
    requires !Agree(a, b)
    ensures p < |a| && p < |b| && a[p] != b[p] && a[..p] == b[..p]
  {
    if a[0] != b[0] {
      p := 0;
    } else {
      assert a == [a[0]] + a[1..] && b == [b[0]] + b[1..];
      var q := FirstDifference(a[1..], b[1..]);
      p := q + 1;
      assert a[..p] == [a[0]] + a[1..][..q] && b[..p] == [b[0]] + b[1..][..q];
    }
  }

  /** An attempt cut off behind the first byte that differs, and the task's own source to go on with: success, and not
      the source. */
  lemma DisagreementShows(task: Task, own: Meeting, v: Meeting, up: bool) returns (tries: seq<Try>)
    requires Proper(own) && Matches(task, own.info) && Matches(task, v.info) && !Agree(v.content, own.content)
    ensures TriesOf({own, v}, up, tries) && After(task, Disk(None, None), tries).1 == Done
    ensures After(task, Disk(None, None), tries).0.destination != Some(own.content)
  {
    var p := FirstDifference(v.content, own.content);
    var first, last := Try(v, true, Smooth(up, p + 1, true)), Try(own, true, Smooth(up, task.total, false));
    tries := [first, last];
    SmoothFirst(task, v, up, p + 1);
    SmoothLast(task, own, up, v.content[..p + 1]);
    assert tries[1..] == [last];
    assert (v.content[..p + 1] + own.content[p + 1..])[p] == v.content[p];
  }

  /** For downloads as for uploads, the task's own source being among what can be met: every sequence of attempts that
      reports success leaves the source if and only if all that can be read after a passing stat is a start of the
      source or begins with it. */
  lemma DeliversExactly(task: Task, meetings: set<Meeting>, own: Meeting, up: bool)
    requires own in meetings && Proper(own) && Matches(task, own.info)
    ensures AlwaysDelivers(task, meetings, own.content, up) <==> Agreeing(task, meetings, own.content)
  {
    if Agreeing(task, meetings, own.content) {
      AgreeingDelivers(task, meetings, own.content, up);
    }
    forall v | v in meetings && Matches(task, v.info) && !Agree(v.content, own.content)
      ensures !AlwaysDelivers(task, meetings, own.content, up)
    {
      var tries := DisagreementShows(task, own, v, up);
      assert forall i :: 0 <= i < |tries| ==> tries[i].v in {own, v};
      assert !Delivers(task, meetings, own.content, up, Disk(None, None), tries);
    }
  }

  lemma UnmatchedDelivers(task: Task, meetings: set<Meeting>, source: seq<byte>, up: bool)
    requires forall v :: v in meetings ==> !Matches(task, v.info)
    ensures AlwaysDelivers(task, meetings, source, up)
  {
    forall d: Disk, tries: seq<Try> ensures Delivers(task, meetings, source, up, d, tries) {
      if TriesOf(meetings, up, tries) {
        NoneDone(task, d, tries);
      }
    }
  }

  /** An undisturbed attempt delivers what it met. */
  lemma OneDelivers(task: Task, meetings: set<Meeting>, v: Meeting, source: seq<byte>, up: bool)
    requires v in meetings && Proper(v) && Matches(task, v.info) && AlwaysDelivers(task, meetings, source, up)
    ensures v.content == source
  {
    var tries := [Try(v, true, Smooth(up, task.total, false))];
    SmoothLast(task, v, up, []);
    assert TriesOf(meetings, up, tries);
    assert Delivers(task, meetings, source, up, Disk(None, None), tries);
  }

  /** When nothing changes between a stat and its read, and whatever the source in question: every sequence of attempts
      that reports success leaves it if and only if size and second determine the content to be it. */
  lemma DeliversIfIdentified(task: Task, versions: set<Meeting>, source: seq<byte>, up: bool)
    requires forall v :: v in versions ==> Proper(v)
    ensures AlwaysDelivers(task, versions, source, up) <==> Identified(task, versions, source)
  {
    if v :| v in versions && Matches(task, v.info) {
      if AlwaysDelivers(task, versions, source, up) {
        OneDelivers(task, versions, v, source, up);
      }
      if v.content == source {
        DeliversExactly(task, versions, v, up);
        SameSizeAgrees(task, versions, v);
      }
    } else {
      UnmatchedDelivers(task, versions, source, up);
    }
  }

  /** Versions of one size agree only if they are equal. */
  lemma SameSizeAgrees(task: Task, versions: set<Meeting>, own: Meeting)
    requires own in versions && Matches(task, own.info) && forall v :: v in versions ==> Proper(v)
    ensures Agreeing(task, versions, own.content) <==> Identified(task, versions, own.content)
  {
    forall v | v in versions && Matches(task, v.info)
      ensures Agree(v.content, own.content) <==> v.content == own.content
    {
      assert |v.content| == |own.content|;
    }
  }

  /** Two versions that pass for each other can be spliced anywhere: one attempt is cut off in the first, the next
      goes on in the second and reports success. */
  lemma VersionsMix(task: Task, u: Meeting, v: Meeting, up: bool, k: nat)
    requires Proper(u) && Proper(v) && Matches(task, u.info) && Matches(task, v.info) && k <= task.total
    ensures var tries := [Try(u, true, Smooth(up, k, true)), Try(v, true, Smooth(up, task.total, false))];
            After(task, Disk(None, None), tries) == (Disk(None, Some(u.content[..k] + v.content[k..])), Done)
  {
    var first, last := Try(u, true, Smooth(up, k, true)), Try(v, true, Smooth(up, task.total, false));
    SmoothFirst(task, u, up, k);
    SmoothLast(task, v, up, u.content[..k]);
    assert [first, last][1..] == [last];
  }

  /** And the splice is the contents of one of the two only if they agree before it or from it on. */
  lemma SpliceIsNeither(u: seq<byte>, v: seq<byte>, k: nat)
    requires |u| == |v| && k <= |u|
    ensures u[..k] + v[k..] == u <==> v[k..] == u[k..]
    ensures u[..k] + v[k..] == v <==> u[..k] == v[..k]
  {
    var x := u[..k] + v[k..];
    assert x[..k] == u[..k] && x[k..] == v[k..];
    assert u == u[..k] + u[k..] && v == v[..k] + v[k..];
  }

  /** A source that changes between the stat and the read: success leaves the task's source if and only if what was
      read agrees with it from the offset on. */
  lemma SuccessOnChangedSource(task: Task, source: seq<byte>, content: seq<byte>, base: seq<byte>, before: Disk,
                               after: Disk)
    requires |source| == task.total && base <= source && Attempt(task, content, base, before, after, true)
    ensures task.total <= |content| || base == source
    ensures after.destination == Some(source)
       <==> base == source || content[|base|..task.total] == source[|base|..]
  {
    var b := after.destination.value;
    var k: nat :| GrownTo(base, content, k, b);
    assert source == base + source[|base|..];
    assert k == task.total - |base|;
    assert b[|base|..] == From(content, |base|)[..k];
    assert k > 0 ==> From(content, |base|)[..k] == content[|base|..task.total];
    assert k == 0 ==> base == source;
  }

  const EARLIER := Meeting(Info(2, 5_000_000_000), [1, 1])
  const LATER := Meeting(Info(2, 5_900_000_000), [2, 2])

  /** A source rewritten within the same second, to the same size: the destination ends up with bytes the source never
      had. */
  lemma SameSecondMixes(up: bool)
    ensures var task := Task(2, 5_000_000_000, false);
            && Matches(task, EARLIER.info) && Matches(task, LATER.info)
            && exists tries :: TriesOf({EARLIER, LATER}, up, tries)
                               && After(task, Disk(None, None), tries) == (Disk(None, Some([1, 2])), Done)
  {
    var task := Task(2, 5_000_000_000, false);
    VersionsMix(task, EARLIER, LATER, up, 1);
    assert EARLIER.content[..1] + LATER.content[1..] == [1, 2];
    var tries := [Try(EARLIER, true, Smooth(up, 1, true)), Try(LATER, true, Smooth(up, task.total, false))];
    assert TriesOf({EARLIER, LATER}, up, tries);
  }

  /** A source replaced, seconds later, between an attempt's stat and its read: the stat has passed, and the other
      contents are delivered. */
  lemma ReplacedInBetween(up: bool)
    ensures var task := Task(2, 5_000_000_000, false);
            var replaced := Meeting(Info(2, 7_000_000_000), [2, 2]);
            && Identified(task, {EARLIER, replaced}, EARLIER.content)
            && Made(task, Disk(None, None), Try(Meeting(EARLIER.info, replaced.content), true, Smooth(up, 2, false)))
               == (Disk(None, Some([2, 2])), Done)
  {
    var task := Task(2, 5_000_000_000, false);
    SmoothLast(task, Meeting(EARLIER.info, [2, 2]), up, []);
  }
}
