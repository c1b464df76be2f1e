/** The context document of a job: written afresh at every dispatch, merged into by every upload of a step's plan. */
module ContextDocument {
  import opened Wrappers

  /** A top-level value: an object with one entry for each step, or anything else. */
  datatype Value = Object(entries: map<string, string>) | Plain(text: string)

  type Doc = map<string, Value>

  const SHARED_KEYS := ["planStructuredOutput", "terrakubeUI"]

  predicate IsShared(key: string) { key == SHARED_KEYS[0] || key == SHARED_KEYS[1] }

  /** What an uploaded value makes of the value there is. */
  function MergedValue(key: string, current: Option<Value>, incoming: Option<Value>): Option<Value> {
    if incoming.None? then current
    else if IsShared(key) && incoming.value.Object? && current.Some? && current.value.Object? then
      Some(Object(current.value.entries + incoming.value.entries))
    else incoming
  }

  function Get(doc: Doc, key: string): Option<Value> {
    if key in doc then Some(doc[key]) else None
  }

  // ---- The two ways of writing, spelled out ----

  /** An upload: keys not carried stay, keys carried are replaced, but objects under the two keys all steps share are
      put together, an entry uploaded going before one that was there. */
  predicate IsUpload(before: Doc, body: Doc, after: Doc) {
    && after.Keys == before.Keys + body.Keys
    && (forall k :: k in before && k !in body ==> after[k] == before[k])
    && (forall k :: k in body && k !in {"planStructuredOutput", "terrakubeUI"} ==> after[k] == body[k])
    && (forall k :: k in body && k in {"planStructuredOutput", "terrakubeUI"} ==>
          if k in before && before[k].Object? && body[k].Object? then
            && after[k].Object? && after[k].entries.Keys == before[k].entries.Keys + body[k].entries.Keys
            && forall s :: s in after[k].entries ==>
                 after[k].entries[s] == if s in body[k].entries then body[k].entries[s] else before[k].entries[s]
          else after[k] == body[k])
  }

  /** A dispatch: a new document, but under the two shared keys what was there before. */
  predicate IsDispatch(before: Doc, written: Doc, after: Doc) {
    && after.Keys == written.Keys + before.Keys * {"planStructuredOutput", "terrakubeUI"}
    && forall k :: k in after ==>
         after[k] == if k in before && k in {"planStructuredOutput", "terrakubeUI"} then before[k] else written[k]
  }

  lemma UploadsAreMerged(before: Doc, body: Doc, after: Doc)
    requires forall k :: Get(after, k) == MergedValue(k, Get(before, k), Get(body, k))
    ensures IsUpload(before, body, after)
  {
    forall k
      ensures k in after <==> k in before || k in body
      ensures k in after ==> Some(after[k]) == MergedValue(k, Get(before, k), Get(body, k))
    {
      assert Get(after, k) == MergedValue(k, Get(before, k), Get(body, k));
    }
    hide Get;
  }

  lemma DispatchesCarryOver(before: Doc, written: Doc, after: Doc)
    requires forall k :: Get(after, k) == if IsShared(k) && k in before then Get(before, k) else Get(written, k)
    ensures IsDispatch(before, written, after)
  {
    forall k
      ensures k in after <==> k in written || (k in before && IsShared(k))
      ensures k in after ==> after[k] == if k in before && IsShared(k) then before[k] else written[k]
    {
      assert Get(after, k) == if IsShared(k) && k in before then Get(before, k) else Get(written, k);
    }
    hide Get;
  }

  /** The file in storage. Whether a read or a write succeeds is up to the storage. */
  class ContextFile {
    var stored: Option<Doc>

    constructor ()
      ensures stored == None
    {
      stored := None;
    }

    method Download(works: bool) returns (doc: Option<Doc>)
      ensures doc == if works then stored else None
    {
      doc := if works then stored else None;
    }

    method Store(doc: Doc, works: bool)
      modifies this
      ensures stored == if works then Some(doc) else old(stored)
    {
      if works {
        stored := Some(doc);
      }
    }

    /** An upload changes the keys it carries and no others; the shared ones entry by entry. */
    method SaveContext(body: Doc, readWorks: bool, writeWorks: bool)
      modifies this
      ensures !writeWorks ==> stored == old(stored)
      ensures writeWorks ==>
                && stored.Some?
                && forall k :: Get(stored.value, k) ==
                    MergedValue(k, Get(Read(old(stored), readWorks), k), Get(body, k))
      ensures writeWorks ==>
                stored.Some?
                && IsUpload(if readWorks && old(stored).Some? then old(stored).value else map[], body, stored.value)
    {
      var merged: Doc := map[];
      var existing := Download(readWorks);
      if existing.Some? {
        merged := existing.value;
      }
      ghost var before := merged;
      var left := body.Keys;
      while left != {}
        invariant left <= body.Keys && stored == old(stored)
        invariant forall k ::
                    Get(merged, k) == if k in left then Get(before, k) else MergedValue(k, Get(before, k), Get(body, k))
      {
        var k :| k in left;
        left := left - {k};
        var incoming := body[k];
        if incoming.Object? && k in merged && merged[k].Object? && IsShared(k) {
          var current := MergeEntries(merged[k].entries, incoming.entries);
          merged := merged[k := Object(current)];
        } else {
          merged := merged[k := incoming];
        }
      }
      Store(merged, writeWorks);
      UploadsAreMerged(before, body, merged);
    }

    static method MergeEntries(current: map<string, string>, incoming: map<string, string>)
      returns (merged: map<string, string>)
      ensures merged == current + incoming
    {
      merged := current;
      var left := incoming.Keys;
      while left != {}
        invariant left <= incoming.Keys
        invariant merged == current + (incoming - left)
      {
        var sk :| sk in left;
        left := left - {sk};
        merged := merged[sk := incoming[sk]];
      }
      assert incoming - {} == incoming;
    }

    /** A dispatch replaces the document and carries the shared keys over, as far as it can read them. */
    method WriteContext(written: Doc, readWorks: bool, writeWorks: bool)
      modifies this
      ensures !writeWorks ==> stored == old(stored)
      ensures writeWorks ==>
                && stored.Some?
                && forall k :: Get(stored.value, k) ==
                     if IsShared(k) && k in Read(old(stored), readWorks)
                         then Get(Read(old(stored), readWorks), k) else Get(written, k)
      ensures writeWorks ==>
                stored.Some?
                && IsDispatch(if readWorks && old(stored).Some? then old(stored).value else map[], written,
                              stored.value)
    {
      var data := written;
      var existing := Download(readWorks);
      if existing.Some? {
        for i := 0 to |SHARED_KEYS|
          invariant forall k ::
            Get(data, k)
            == if k in SHARED_KEYS[..i] && k in existing.value then Get(existing.value, k) else Get(written, k)
        {
          var k := SHARED_KEYS[i];
          assert SHARED_KEYS[..i + 1] == SHARED_KEYS[..i] + [k];
          if k in existing.value {
            data := data[k := existing.value[k]];
          }
        }
        assert SHARED_KEYS[..|SHARED_KEYS|] == SHARED_KEYS;
      }
      Store(data, writeWorks);
      DispatchesCarryOver(if existing.Some? then existing.value else map[], written, data);
    }
  }

  /** What a reader sees: nothing if there is no document or it cannot be read. */
  function Read(stored: Option<Doc>, works: bool): Doc {
    if works && stored.Some? then stored.value else map[]
  }

  // ---- Runs ----

  datatype Op =
    Dispatch(written: Doc, readWorks: bool, writeWorks: bool)
  | Upload(body: Doc, readWorks: bool, writeWorks: bool)

  /** Dispatched documents have no shared keys of their own. */
  predicate OpOk(op: Op) {
    op.Dispatch? ==> forall k :: IsShared(k) ==> k !in op.written
  }

  /** The two operations as the methods above leave the file. */
  ghost predicate Results(op: Op, before: Option<Doc>, after: Option<Doc>) {
    if !op.writeWorks then after == before
    else
      && after.Some?
      && match op
         case Upload(body, readWorks, _) =>
           forall k :: Get(after.value, k) == MergedValue(k, Get(Read(before, readWorks), k), Get(body, k))
         case Dispatch(written, readWorks, _) =>
           forall k :: Get(after.value, k) ==
             if IsShared(k) && k in Read(before, readWorks) then Get(Read(before, readWorks), k) else Get(written, k)
  }

  /** The file after a sequence of operations on it, one at a time. */
  method RunAll(ops: seq<Op>) returns (file: ContextFile, ghost states: seq<Option<Doc>>)
    ensures fresh(file) && IsRun(ops, states) && file.stored == states[|ops|]
  {
    file := new ContextFile();
    states := [None];
    for i := 0 to |ops|
      invariant fresh(file)
      invariant |states| == i + 1 && states[0] == None && file.stored == states[i]
      invariant forall k :: 0 <= k < i ==> Results(ops[k], states[k], states[k + 1])
    {
      match ops[i] {
        case Dispatch(doc, readWorks, writeWorks) => file.WriteContext(doc, readWorks, writeWorks);
        case Upload(body, readWorks, writeWorks) => file.SaveContext(body, readWorks, writeWorks);
      }
      states := states + [file.stored];
    }
  }

  ghost predicate IsRun(ops: seq<Op>, states: seq<Option<Doc>>) {
    && |states| == |ops| + 1 && states[0] == None
    && forall k :: 0 <= k < |ops| ==> Results(ops[k], states[k], states[k + 1])
  }

  function EntryIn(stored: Option<Doc>, key: string, step: string): Option<string> {
    if stored.Some? && key in stored.value && stored.value[key].Object? && step in stored.value[key].entries
    then Some(stored.value[key].entries[step])
    else None
  }

  predicate Uploads(op: Op, key: string, step: string) {
    op.Upload? && op.writeWorks && key in op.body && op.body[key].Object? && step in op.body[key].entries
  }

  /** The entries under a shared key are lost: the document was written without having been read, or something other
      than an object was uploaded in their place. */
  predicate Wipes(op: Op, key: string) {
    op.writeWorks && (!op.readWorks || (op.Upload? && key in op.body && !op.body[key].Object?))
  }

  function LastUpload(ops: seq<Op>, key: string, step: string): (i: Option<nat>)
    ensures i.Some? ==> i.value < |ops| && Uploads(ops[i.value], key, step)
    ensures i.Some? ==> forall j :: i.value < j < |ops| ==> !Uploads(ops[j], key, step)
    ensures i.None? ==> forall j :: 0 <= j < |ops| ==> !Uploads(ops[j], key, step)
  {
    if ops == [] then None
    else if Uploads(ops[|ops| - 1], key, step) then Some(|ops| - 1)
    else LastUpload(ops[..|ops| - 1], key, step)
  }

  predicate Survives(ops: seq<Op>, key: string, step: string) {
    var i := LastUpload(ops, key, step);
    i.Some? && forall j :: i.value < j < |ops| ==> !Wipes(ops[j], key)
  }

  lemma OneOperation(op: Op, before: Option<Doc>, after: Option<Doc>, key: string, step: string)
    requires OpOk(op) && Results(op, before, after) && IsShared(key)
    ensures EntryIn(after, key, step) ==
            if Uploads(op, key, step) then Some(op.body[key].entries[step])
            else if Wipes(op, key) then None
            else EntryIn(before, key, step)
  {
    if op.writeWorks {
      assert Get(after.value, key) == if key in after.value then Some(after.value[key]) else None;
    }
  }

  /** Over every run, a step's entry is stored exactly if nothing wiped its key after its last upload, and it is then
      that upload's entry. */
  lemma {:induction false} EntriesAreTheLastUploaded(ops: seq<Op>, states: seq<Option<Doc>>, key: string, step: string)
    requires IsRun(ops, states) && IsShared(key)
    requires forall i :: 0 <= i < |ops| ==> OpOk(ops[i])
    ensures EntryIn(states[|ops|], key, step) ==
            if Survives(ops, key, step) then Some(ops[LastUpload(ops, key, step).value].body[key].entries[step])
                else None
    decreases |ops|
  {
    hide OpOk, Results, Uploads, Wipes, EntryIn;
    if ops == [] {
      NothingStored(key, step);
    } else {
      var n := |ops| - 1;
      EntriesAreTheLastUploaded(ops[..n], states[..n + 1], key, step);
      OneOperation(ops[n], states[n], states[n + 1], key, step);
    }
  }

  lemma NothingStored(key: string, step: string)
    ensures EntryIn(None, key, step) == None
  {
  }

  /** With every read working, dispatching later steps never loses an uploaded entry. */
  lemma DispatchingLosesNothing(ops: seq<Op>, states: seq<Option<Doc>>, key: string, step: string, i: nat)
    requires IsRun(ops, states) && IsShared(key)
    requires forall k :: 0 <= k < |ops| ==> OpOk(ops[k]) && ops[k].readWorks
    requires i < |ops| && Uploads(ops[i], key, step)
    requires forall j :: i < j < |ops| ==>
               !Uploads(ops[j], key, step) && (ops[j].Upload? && key in ops[j].body ==> ops[j].body[key].Object?)
    ensures EntryIn(states[|ops|], key, step) == Some(ops[i].body[key].entries[step])
  {
    EntriesAreTheLastUploaded(ops, states, key, step);
  }
}
