/** The command handler of `app/api/files/process/route.ts` (reprocess / cancel) and its
    simulated progress tick. */
module ProcessRoute {
  import opened Wrappers
  import opened FileRecords

  /** The handler's answer: 400 without an id, 404 for an unknown id, 400 for an unknown
      operation, or the updated record (`scheduled` when a processing run was started). */
  datatype ProcessResponse =
    | MissingId
    | NotFound
    | InvalidOperation
    | Initiated(operation: string, file: StoredFile, scheduled: bool)

  /** JavaScript truthiness of the `fileId` field: absent or empty is falsy. */
  predicate Present(fileId: Option<string>)
  {
    fileId.Some? && fileId.value != ""
  }

  /** `Math.min(p + d, 100)`: one step of simulated progress. */
  function Advance(p: real, d: real): (r: real)
    requires 0.0 <= p <= 100.0 && 0.0 <= d < 20.0
    ensures p <= r <= 100.0
    ensures p + d < 100.0 ==> r == p + d
    ensures p + d >= 100.0 ==> r == 100.0
  {
    if p + d < 100.0 then p + d else 100.0
  }

  /** One tick of `processFile` on the record at `index`: the store afterwards and whether the
      interval keeps running. `d` is the random increment in [0, 20), `succeeds` the random
      outcome drawn when progress reaches 100. */
  function ProgressStep(files: seq<StoredFile>, index: nat, d: real, succeeds: bool): (r: (seq<StoredFile>, bool))
    requires ProgressInRange(files) && 0.0 <= d < 20.0
    ensures |r.0| == |files| && ProgressInRange(r.0)
    ensures forall i :: 0 <= i < |files| && i != index ==> r.0[i] == files[i]
    ensures index >= |files| || files[index].status != Processing ==> r == (files, false)
    ensures index < |files| && files[index].status == Processing ==>
              && r.0[index] == files[index].(status := r.0[index].status, progress := r.0[index].progress)
              && files[index].progress <= r.0[index].progress
              && (r.1 ==> r.0[index].progress == files[index].progress + d)
              && (!r.1 ==> files[index].progress + d >= 100.0)
              && (r.1 <==> r.0[index].progress < 100.0)
              && (r.1 ==> r.0[index].status == Processing)
              && (!r.1 ==> r.0[index].progress == 100.0
                           && r.0[index].status == (if succeeds then Completed else Error))
  {
    if index >= |files| || files[index].status != Processing then (files, false)
    else
      var f := files[index];
      var p := Advance(f.progress, d);
      if p >= 100.0 then (files[index := f.(status := if succeeds then Completed else Error, progress := 100.0)], false)
      else (files[index := f.(progress := p)], true)
  }

  /** The module-level `files` array of this route and its handlers. */
  class ProcessRoute {
    var files: seq<StoredFile>

    ghost predicate Valid()
      reads this
    {
      ProgressInRange(files)
    }

    constructor(initial: seq<StoredFile>)
      requires ProgressInRange(initial)
      ensures Valid() && files == initial
    {
      files := initial;
    }

    /** `POST`: both lookups run before the operation is examined. */
    method Post(fileId: Option<string>, operation: string) returns (resp: ProcessResponse)
      requires Valid()
      modifies this
      ensures Valid()
      ensures !Present(fileId) ==> resp == MissingId && files == old(files)
      ensures Present(fileId) && FindIndex(old(files), fileId.value) == -1 ==>
                resp == NotFound && files == old(files)
      ensures Present(fileId) && FindIndex(old(files), fileId.value) != -1 ==>
                var i := FindIndex(old(files), fileId.value);
                var f := old(files)[i];
                && (operation == "reprocess" ==>
                      var g := f.(status := Processing, progress := 0.0);
                      files == old(files)[i := g] && resp == Initiated(operation, g, true))
                && (operation == "cancel" && f.status.IsActive() ==>
                      var g := f.(status := Error, progress := 0.0);
                      files == old(files)[i := g] && resp == Initiated(operation, g, false))
                && (operation == "cancel" && !f.status.IsActive() ==>
                      files == old(files) && resp == Initiated(operation, f, false))
                && (operation != "reprocess" && operation != "cancel" ==>
                      files == old(files) && resp == InvalidOperation)
    {
      if !Present(fileId) {
        return MissingId;
      }
      var i := FindIndex(files, fileId.value);
      if i == -1 {
        return NotFound;
      }
      var file := files[i];
      if operation == "reprocess" {
        files := files[i := file.(status := Processing, progress := 0.0)];
        resp := Initiated(operation, files[i], true);
      } else if operation == "cancel" {
        if file.status == Processing || file.status == Uploading {
          files := files[i := file.(status := Error, progress := 0.0)];
        }
        resp := Initiated(operation, files[i], false);
      } else {
        resp := InvalidOperation;
      }
    }

    /** One tick of the `processFile` interval on the index found when processing started. */
    method ProgressTick(index: nat, d: real, succeeds: bool) returns (keepRunning: bool)
      requires Valid() && 0.0 <= d < 20.0
      modifies this
      ensures Valid()
      ensures files == ProgressStep(old(files), index, d, succeeds).0
      ensures keepRunning == ProgressStep(old(files), index, d, succeeds).1
    {
      if index >= |files| || files[index].status != Processing {
        return false;
      }
      var file := files[index];
      files := files[index := file.(progress := Advance(file.progress, d))];
      keepRunning := true;
      if files[index].progress >= 100.0 {
        keepRunning := false;
        files := files[index := files[index].(status := if succeeds then Completed else Error, progress := 100.0)];
      }
    }
  }

  /** A cancelled file is never advanced again: the tick after a cancel stops without writing. */
  lemma CancelHaltsProgress(files: seq<StoredFile>, index: nat, d: real, succeeds: bool)
    requires ProgressInRange(files) && 0.0 <= d < 20.0
    requires index < |files| && files[index].status == Error
    ensures ProgressStep(files, index, d, succeeds) == (files, false)
  {
  }

  /** Over any run of ticks, the record's progress never decreases and never exceeds 100.
      Returns the store and whether the interval is still armed; once it has stopped, the
      record is no longer `processing`, and a record that was processing stopped at 100. */
  function Run(files: seq<StoredFile>, index: nat, steps: seq<(real, bool)>): (r: (seq<StoredFile>, bool))
    requires ProgressInRange(files)
    requires forall k :: 0 <= k < |steps| ==> 0.0 <= steps[k].0 < 20.0
    ensures |r.0| == |files| && ProgressInRange(r.0)
    ensures forall i :: 0 <= i < |files| && i != index ==> r.0[i] == files[i]
    ensures index < |files| && files[index].status == Processing ==> files[index].progress <= r.0[index].progress
    ensures !r.1 ==> index >= |files| || r.0[index].status != Processing
    ensures !r.1 && index < |files| && files[index].status == Processing ==> r.0[index].progress == 100.0
    ensures r.1 && steps != [] ==> index < |files| && r.0[index].status == Processing && r.0[index].progress < 100.0
    decreases |steps|
  {
    if steps == [] then (files, true)
    else
      var step := ProgressStep(files, index, steps[0].0, steps[0].1);
      if !step.1 then (step.0, false) else Run(step.0, index, steps[1..])
  }
}
