/**
 The list of references the references page shows while uploads are in
 flight (`createdReferences` in ReferencesContainer): a batch of placeholders
 built when PDF files are dropped, then reconciled one WebSocket message at a
 time against the citations the server creates. Matching is by position (the
 first LOADING entry), never by the placeholder's id.
 */
module ReferenceLedger {

  /** The citation type every placeholder carries until the server answers. */
  const LOADING: string := "LOADING"

  /** An element of `createdReferences`. The reconciler reads nothing but
      `citationType`; the fields of a server citation are opaque (`F`). */
  datatype Reference<F> =
    | Preload(citationType: string, id: string, created: bool)
    | Citation(citationType: string, fields: F)

  /** A decoded WebSocket message: `dupe_citation` is set, or else the
      message carries `created_citation`. */
  datatype WsMessage<F> = Dupe | Created(citation: Reference<F>)

  predicate IsLoading<F>(r: Reference<F>)
  {
    r.citationType == LOADING
  }

  predicate NoneLoading<F>(s: seq<Reference<F>>)
  {
    forall j :: 0 <= j < |s| ==> !IsLoading(s[j])
  }

  predicate AllLoading<F>(s: seq<Reference<F>>)
  {
    forall j :: 0 <= j < |s| ==> IsLoading(s[j])
  }

  /** `refs.findIndex(r => r.citation_type === "LOADING")`: the lowest index of
      a LOADING entry, or -1 when there is none. */
  function FirstLoadingIndex<F>(refs: seq<Reference<F>>): (ind: int)
    ensures -1 <= ind < |refs|
    ensures ind == -1 <==> NoneLoading(refs)
    ensures 0 <= ind ==> IsLoading(refs[ind])
    ensures forall j :: 0 <= j < ind ==> !IsLoading(refs[j])
  {
    FirstLoadingFrom(refs, 0)
  }

  /** The scan behind `findIndex`, started at `from` once every earlier entry
      is known not to be LOADING. */
  function FirstLoadingFrom<F>(refs: seq<Reference<F>>, from: nat): (ind: int)
    requires from <= |refs|
    requires forall j :: 0 <= j < from ==> !IsLoading(refs[j])
    ensures -1 <= ind < |refs|
    ensures ind == -1 <==> NoneLoading(refs)
    ensures 0 <= ind ==> IsLoading(refs[ind])
    ensures forall j :: 0 <= j < ind ==> !IsLoading(refs[j])
    decreases |refs| - from
  {
    if from == |refs| then -1
    else if IsLoading(refs[from]) then from
    else FirstLoadingFrom(refs, from + 1)
  }

  /** `a.splice(start, 1)` on its result, with ECMAScript's reading of the start
      index: a negative start counts back from the end (clamped at 0), and a
      start at or past the end deletes nothing. */
  function SpliceOne<T>(a: seq<T>, start: int): (r: seq<T>)
    ensures 0 <= start < |a| ==> r == a[..start] + a[start + 1..]
    ensures start == -1 && a != [] ==> r == a[..|a| - 1]
    ensures a == [] || start >= |a| ==> r == a
    ensures |r| == if a == [] || start >= |a| then |a| else |a| - 1
  {
    var s := if start < 0 then (if |a| + start < 0 then 0 else |a| + start)
             else if start > |a| then |a| else start;
    var del := if s < |a| then 1 else 0;
    a[..s] + a[s + del..]
  }

  /** The list the `wsResponse` effect hands to `setCreatedReferences`. The
      index of the first LOADING entry is used without a check for -1: a dupe
      then runs `splice(-1, 1)`, which drops the LAST entry, and a created
      citation is stored under the property "-1", which is not an element. */
  function Reconcile<F>(refs: seq<Reference<F>>, msg: WsMessage<F>): (r: seq<Reference<F>>)
    // a created citation takes the slot of the first LOADING entry, nothing else moves
    ensures msg.Created? && !NoneLoading(refs) ==>
      var k := FirstLoadingIndex(refs);
      |r| == |refs| && r[k] == msg.citation &&
      forall j :: 0 <= j < |refs| && j != k ==> r[j] == refs[j]
    // a dupe removes the first LOADING entry and keeps the rest in order
    ensures msg.Dupe? && !NoneLoading(refs) ==>
      var k := FirstLoadingIndex(refs);
      |r| == |refs| - 1 && r == refs[..k] + refs[k + 1..]
    // entries before the first LOADING entry are never altered
    ensures !NoneLoading(refs) ==>
      var k := FirstLoadingIndex(refs);
      r[..k] == refs[..k]
    // no LOADING entry: a dupe drops the last entry, a created citation changes nothing
    ensures NoneLoading(refs) && msg.Dupe? ==> r == if refs == [] then [] else refs[..|refs| - 1]
    ensures NoneLoading(refs) && msg.Created? ==> r == refs
  {
    var ind := FirstLoadingIndex(refs);
    match msg
    case Dupe => SpliceOne(refs, ind)
    case Created(c) => if ind < 0 then refs else refs[ind := c]
  }

  /** The list after the messages `msgs` arrive one at a time, in order. */
  function ReconcileAll<F>(refs: seq<Reference<F>>, msgs: seq<WsMessage<F>>): seq<Reference<F>>
    decreases |msgs|
  {
    if msgs == [] then refs else ReconcileAll(Reconcile(refs, msgs[0]), msgs[1..])
  }

  /** The citations carried by the created messages of `msgs`, in arrival order. */
  function CreatedCitations<F>(msgs: seq<WsMessage<F>>): seq<Reference<F>>
    decreases |msgs|
  {
    if msgs == [] then []
    else (if msgs[0].Created? then [msgs[0].citation] else []) + CreatedCitations(msgs[1..])
  }

  predicate CreatesNoLoading<F>(msgs: seq<WsMessage<F>>)
  {
    forall i :: 0 <= i < |msgs| && msgs[i].Created? ==> !IsLoading(msgs[i].citation)
  }

  /** With finished entries `done` ahead of the pending placeholders, the first
      pending placeholder is the first LOADING entry. */
  lemma FirstPendingIsFirstLoading<F>(done: seq<Reference<F>>, pending: seq<Reference<F>>)
    requires NoneLoading(done) && AllLoading(pending) && pending != []
    ensures FirstLoadingIndex(done + pending) == |done|
  {
    var s := done + pending;
    assert IsLoading(s[|done|]);
    assert forall j :: 0 <= j < |done| ==> s[j] == done[j];
  }

  /** The message that arrives while `pending` is non-empty resolves its first
      placeholder. */
  lemma ReconcileFirstPending<F>(done: seq<Reference<F>>, pending: seq<Reference<F>>, msg: WsMessage<F>)
    requires NoneLoading(done) && AllLoading(pending) && pending != []
    ensures Reconcile(done + pending, msg)
         == done + (if msg.Created? then [msg.citation] else []) + pending[1..]
  {
    FirstPendingIsFirstLoading(done, pending);
    var s := done + pending;
    match msg {
      case Dupe =>
        calc {
          Reconcile(s, msg);
          SpliceOne(s, |done|);
          s[..|done|] + s[|done| + 1..];
          { assert s[..|done|] == done; assert s[|done| + 1..] == pending[1..]; }
          done + pending[1..];
        }
      case Created(c) =>
        calc {
          Reconcile(s, msg);
          s[|done| := c];
          { assert s[|done| := c] == done + [c] + pending[1..]; }
          done + [c] + pending[1..];
        }
    }
  }

  lemma NoneLoadingConcat<F>(a: seq<Reference<F>>, b: seq<Reference<F>>)
    requires NoneLoading(a) && NoneLoading(b)
    ensures NoneLoading(a + b)
  {
  }

  /** Position-based correlation: as long as placeholders remain, the i-th
      message resolves the i-th placeholder, whichever upload it answers. Dupes
      disappear, created citations fill the slots in arrival order, and the
      placeholders not yet answered stay at the end. */
  lemma {:induction false} ReconcileAllFillsInArrivalOrder<F>(
    done: seq<Reference<F>>, pending: seq<Reference<F>>, msgs: seq<WsMessage<F>>)
    requires NoneLoading(done) && AllLoading(pending) && |msgs| <= |pending|
    requires CreatesNoLoading(msgs)
    ensures ReconcileAll(done + pending, msgs) == done + CreatedCitations(msgs) + pending[|msgs|..]
    decreases |msgs|
  {
    if msgs != [] {
      var head := if msgs[0].Created? then [msgs[0].citation] else [];
      var done' := done + head;
      var pending' := pending[1..];
      assert NoneLoading(done') by {
        assert NoneLoading(head) by {
          assert msgs[0].Created? ==> !IsLoading(msgs[0].citation);
        }
        NoneLoadingConcat(done, head);
      }
      assert CreatesNoLoading(msgs[1..]) by {
        forall i | 0 <= i < |msgs[1..]| && msgs[1..][i].Created?
          ensures !IsLoading(msgs[1..][i].citation)
        {
          assert msgs[1..][i] == msgs[i + 1];
        }
      }
      calc {
        ReconcileAll(done + pending, msgs);
        ReconcileAll(Reconcile(done + pending, msgs[0]), msgs[1..]);
        { ReconcileFirstPending(done, pending, msgs[0]); }
        ReconcileAll(done' + pending', msgs[1..]);
        { ReconcileAllFillsInArrivalOrder(done', pending', msgs[1..]);
          assert pending'[|msgs[1..]|..] == pending[|msgs|..]; }
        done' + CreatedCitations(msgs[1..]) + pending[|msgs|..];
        done + (head + CreatedCitations(msgs[1..])) + pending[|msgs|..];
        done + CreatedCitations(msgs) + pending[|msgs|..];
      }
    }
  }

  /** One reconciliation pass per dropped file, all of them created citations:
      the placeholders are replaced, slot by slot, by the citations in the
      order they arrived. */
  lemma DropThenAllCreated<F>(preload: seq<Reference<F>>, msgs: seq<WsMessage<F>>)
    requires AllLoading(preload) && |msgs| == |preload|
    requires CreatesNoLoading(msgs)
    requires forall i :: 0 <= i < |msgs| ==> msgs[i].Created?
    ensures |ReconcileAll(preload, msgs)| == |msgs|
    ensures forall i :: 0 <= i < |msgs| ==> ReconcileAll(preload, msgs)[i] == msgs[i].citation
  {
    ReconcileAllFillsInArrivalOrder([], preload, msgs);
    assert [] + preload == preload;
    AllCreatedCitations(msgs);
  }

  lemma {:induction false} AllCreatedCitations<F>(msgs: seq<WsMessage<F>>)
    requires forall i :: 0 <= i < |msgs| ==> msgs[i].Created?
    ensures CreatedCitations(msgs) == seq(|msgs|, i requires 0 <= i < |msgs| => msgs[i].citation)
    decreases |msgs|
  {
    if msgs != [] {
      AllCreatedCitations(msgs[1..]);
    }
  }

  /** The placeholder batch `handleFileDrop` builds: one LOADING entry per
      accepted file, with the id the browser handed out for it. */
  method BuildPreload<F>(ids: seq<string>) returns (preload: seq<Reference<F>>)
    ensures |preload| == |ids|
    ensures forall i :: 0 <= i < |ids| ==> preload[i] == Preload(LOADING, ids[i], true)
    ensures AllLoading(preload)
  {
    preload := [];
    for i := 0 to |ids|
      invariant |preload| == i
      invariant forall j :: 0 <= j < i ==> preload[j] == Preload(LOADING, ids[j], true)
    {
      preload := preload + [Preload(LOADING, ids[i], true)];
    }
  }

  /** The reference-list state of the references page. */
  class ReferencesContainer<F> {
    var createdReferences: seq<Reference<F>>
    var loading: bool

    constructor ()
      ensures createdReferences == [] && !loading
    {
      createdReferences := [];
      loading := false;
    }

    /** `handleFileDrop`: the placeholder batch REPLACES the list; whatever
        it held before is discarded. `ids` holds the id generated for each
        accepted file, in order. */
    method HandleFileDrop(ids: seq<string>)
      modifies this
      ensures |createdReferences| == |ids|
      ensures forall i :: 0 <= i < |ids| ==> createdReferences[i] == Preload(LOADING, ids[i], true)
      ensures !loading
    {
      var preload := BuildPreload(ids);
      createdReferences := preload;
      loading := false;
    }

    /** The `wsResponse` effect for one decoded message: copy the list, find
        the first LOADING entry, then splice it out or overwrite it. */
    method OnWsResponse(msg: WsMessage<F>)
      modifies this
      ensures createdReferences == Reconcile(old(createdReferences), msg)
      ensures loading == old(loading)
    {
      var newReferences := createdReferences;
      var ind := FirstLoadingIndex(newReferences);
      match msg {
        case Dupe =>
          newReferences := SpliceOne(newReferences, ind);
        case Created(citation) =>
          if 0 <= ind {
            newReferences := newReferences[ind := citation];
          }
      }
      createdReferences := newReferences;
    }
  }
}
