/** `knowledge.py` and `knowledge_versions.py`: documents whose every content change leaves a
    snapshot, and the restoring of earlier versions. */
module Knowledge {
  import opened Text

  type DocId = nat

  datatype Document = Document(title: string, content: string, version: nat)

  datatype Snapshot = Snapshot(doc: DocId, version: nat, title: string, content: string, note: string)

  /** The documents, and the table of snapshots in the order they were added. */
  datatype State = State(docs: map<DocId, Document>, snapshots: seq<Snapshot>)

  const EMPTY := State(map[], [])

  datatype KnowledgeError = DocumentNotFound | VersionNotFound

  // ---------------------------------------------------------------------
  // The operations
  // ---------------------------------------------------------------------

  function SnapshotOf(id: DocId, d: Document, note: string): Snapshot {
    Snapshot(id, d.version, d.title, d.content, note)
  }

  /** The document saved, with a snapshot of it. */
  function Saved(s: State, id: DocId, d: Document, note: string): State {
    State(s.docs[id := d], s.snapshots + [SnapshotOf(id, d, note)])
  }

  function Created(s: State, id: DocId, title: string, content: string): State {
    Saved(s, id, Document(title, content, 1), "Initial version")
  }

  /** `update`: a given title always makes a new version, a given content only if it differs. */
  function Updated(s: State, id: DocId, title: Option<string>, content: Option<string>, note: string): Result<State, KnowledgeError> {
    if id !in s.docs then Err(DocumentNotFound)
    else
      var d := s.docs[id];
      var d' := d.(title := if title.Some? then title.value else d.title,
                   content := if content.Some? then content.value else d.content);
      if title.Some? || d'.content != d.content then Ok(Saved(s, id, d'.(version := d.version + 1), note))
      else Ok(s)
  }

  /** `get_version`: the first snapshot of the document with the number. */
  function FindVersion(snapshots: seq<Snapshot>, id: DocId, v: nat): (r: Option<Snapshot>)
    ensures r.Some? ==> r.value in snapshots && r.value.doc == id && r.value.version == v
    ensures r.None? ==> forall x :: x in snapshots ==> x.doc != id || x.version != v
  {
    if snapshots == [] then None
    else if snapshots[0].doc == id && snapshots[0].version == v then Some(snapshots[0])
    else FindVersion(snapshots[1..], id, v)
  }

  const RESTORED := "Restored"

  function Restored(s: State, id: DocId, v: nat): Result<State, KnowledgeError> {
    if id !in s.docs then Err(DocumentNotFound)
    else
      match FindVersion(s.snapshots, id, v)
      case None => Err(VersionNotFound)
      case Some(target) =>
        Ok(Saved(s, id, Document(target.title, target.content, s.docs[id].version + 1), RESTORED))
  }

  /** An update stores every text it is given and keeps the others; it makes a new version, with a
      snapshot of what is stored then, if and only if it is given a title or another content. No
      other document changes. */
  lemma UpdatedExactly(s: State, id: DocId, title: Option<string>, content: Option<string>, note: string)
    ensures Updated(s, id, title, content, note).Ok? <==> id in s.docs
    ensures id in s.docs ==>
              var s' := Updated(s, id, title, content, note).value;
              var d, d' := s.docs[id], s'.docs[id];
              var newer := title.Some? || (content.Some? && content.value != d.content);
              && s'.docs.Keys == s.docs.Keys && (forall e :: e in s.docs && e != id ==> s'.docs[e] == s.docs[e])
              && (title.Some? ==> d'.title == title.value) && (title.None? ==> d'.title == d.title)
              && (content.Some? ==> d'.content == content.value) && (content.None? ==> d'.content == d.content)
              && d'.version == d.version + (if newer then 1 else 0)
              && |s'.snapshots| == |s.snapshots| + (if newer then 1 else 0) && s.snapshots <= s'.snapshots
              && (newer ==>
                    var x := s'.snapshots[|s.snapshots|];
                    x.doc == id && x.version == d'.version && x.title == d'.title && x.content == d'.content && x.note == note)
  {
    if id in s.docs && !title.Some? && !(content.Some? && content.value != s.docs[id].content) {
      assert Updated(s, id, title, content, note).value == s;
    }
  }

  /** A new document is stored with its text as version 1. */
  lemma CreatedExactly(s: State, id: DocId, title: string, content: string)
    requires id !in s.docs
    ensures var s' := Created(s, id, title, content);
            && s'.docs.Keys == s.docs.Keys + {id} && (forall e :: e in s.docs ==> s'.docs[e] == s.docs[e])
            && s'.docs[id].title == title && s'.docs[id].content == content && s'.docs[id].version == 1
            && |s'.snapshots| == |s.snapshots| + 1 && s.snapshots <= s'.snapshots
            && s'.snapshots[|s.snapshots|].doc == id && s'.snapshots[|s.snapshots|].version == 1
            && s'.snapshots[|s.snapshots|].title == title && s'.snapshots[|s.snapshots|].content == content
  {
  }

  class KnowledgeService {
    var state: State

    constructor ()
      ensures state == EMPTY
    {
      state := EMPTY;
    }

    method Snap(id: DocId, note: string)
      requires id in state.docs
      modifies this
      ensures state == old(state).(snapshots := old(state.snapshots) + [SnapshotOf(id, old(state.docs)[id], note)])
    {
      state := state.(snapshots := state.snapshots + [SnapshotOf(id, state.docs[id], note)]);
    }

    method Create(id: DocId, title: string, content: string)
      requires id !in state.docs
      modifies this
      ensures state == Created(old(state), id, title, content)
    {
      state := state.(docs := state.docs[id := Document(title, content, 1)]);
      Snap(id, "Initial version");
    }

    method Update(id: DocId, title: Option<string>, content: Option<string>, note: string)
      returns (r: Result<nat, KnowledgeError>)
      modifies this
      ensures match Updated(old(state), id, title, content, note)
              case Ok(s) => state == s && r == Ok(s.docs[id].version)
              case Err(e) => state == old(state) && r == Err(e)
    {
      if id !in state.docs {
        return Err(DocumentNotFound);
      }
      var doc := state.docs[id];
      var contentChanged := false;
      if title.Some? {
        doc := doc.(title := title.value);
      }
      if content.Some? && content.value != doc.content {
        doc := doc.(content := content.value);
        contentChanged := true;
      }
      if contentChanged || title.Some? {
        state := state.(docs := state.docs[id := doc.(version := doc.version + 1)]);
        Snap(id, note);
      }
      return Ok(state.docs[id].version);
    }

    method Restore(id: DocId, v: nat) returns (r: Result<nat, KnowledgeError>)
      modifies this
      ensures match Restored(old(state), id, v)
              case Ok(s) => state == s && r == Ok(s.docs[id].version)
              case Err(e) => state == old(state) && r == Err(e)
    {
      if id !in state.docs {
        return Err(DocumentNotFound);
      }
      var target := FindVersion(state.snapshots, id, v);
      if target.None? {
        return Err(VersionNotFound);
      }
      var doc := state.docs[id].(title := target.value.title, content := target.value.content);
      doc := doc.(version := doc.version + 1);
      state := state.(docs := state.docs[id := doc]);
      Snap(id, RESTORED);
      return Ok(doc.version);
    }
  }

  // ---------------------------------------------------------------------
  // Histories
  // ---------------------------------------------------------------------

  /** The snapshots of one document, oldest first. */
  function History(snapshots: seq<Snapshot>, id: DocId): (h: seq<Snapshot>)
    ensures forall x :: x in h <==> x in snapshots && x.doc == id
  {
    if snapshots == [] then []
    else
      var n := |snapshots| - 1;
      assert snapshots == snapshots[..n] + [snapshots[n]];
      History(snapshots[..n], id) + if snapshots[n].doc == id then [snapshots[n]] else []
  }

  /** One snapshot for each version from 1 to the current one, in order, and the newest holds
      the current text. */
  ghost predicate DocumentOk(s: State, id: DocId)
    requires id in s.docs
  {
    var d, h := s.docs[id], History(s.snapshots, id);
    && d.version >= 1 && |h| == d.version
    && (forall k :: 0 <= k < d.version ==> h[k].version == k + 1)
    && h[d.version - 1].title == d.title && h[d.version - 1].content == d.content
  }

  ghost predicate Inv(s: State) {
    && (forall id :: id in s.docs ==> DocumentOk(s, id))
    && (forall x :: x in s.snapshots ==> x.doc in s.docs)
  }

  lemma HistorySnoc(snapshots: seq<Snapshot>, x: Snapshot, id: DocId)
    ensures History(snapshots + [x], id) == if x.doc == id then History(snapshots, id) + [x] else History(snapshots, id)
  {
    assert (snapshots + [x])[..|snapshots|] == snapshots;
  }

  /** Saving the next version of a document extends its history by that version. */
  lemma SavedOwn(s: State, id: DocId, d: Document, note: string)
    requires Inv(s) && d.version == (if id in s.docs then s.docs[id].version + 1 else 1)
    ensures History(Saved(s, id, d, note).snapshots, id) == History(s.snapshots, id) + [SnapshotOf(id, d, note)]
    ensures DocumentOk(Saved(s, id, d, note), id)
  {
    hide History;
    var h := History(s.snapshots, id);
    HistorySnoc(s.snapshots, SnapshotOf(id, d, note), id);
    assert |h| > 0 ==> h[0] in h && h[0] in s.snapshots;
    if id in s.docs {
      assert DocumentOk(s, id);
    }
  }

  lemma SavedOther(s: State, id: DocId, d: Document, note: string, e: DocId)
    requires e != id && e in s.docs && DocumentOk(s, e)
    ensures DocumentOk(Saved(s, id, d, note), e)
  {
    hide History;
    HistorySnoc(s.snapshots, SnapshotOf(id, d, note), e);
    assert History(Saved(s, id, d, note).snapshots, e) == History(s.snapshots, e);
  }

  /** And keeps every other history. */
  lemma SavedKeeps(s: State, id: DocId, d: Document, note: string)
    requires Inv(s) && d.version == (if id in s.docs then s.docs[id].version + 1 else 1)
    ensures Inv(Saved(s, id, d, note))
  {
    hide DocumentOk, History;
    SavedOwn(s, id, d, note);
    forall e | e in s.docs && e != id ensures DocumentOk(Saved(s, id, d, note), e) {
      SavedOther(s, id, d, note, e);
    }
  }

  datatype Request =
    | CreateRequest(id: DocId, title: string, content: string)
    | UpdateRequest(id: DocId, newTitle: Option<string>, newContent: Option<string>, note: string)
    | RestoreRequest(id: DocId, version: nat)

  /** The state after a request; a refused one, or the creation of a document that is there,
      changes nothing. */
  function Handled(s: State, q: Request): State {
    match q
    case CreateRequest(id, title, content) => if id in s.docs then s else Created(s, id, title, content)
    case UpdateRequest(id, title, content, note) =>
      (match Updated(s, id, title, content, note) case Ok(s') => s' case Err(_) => s)
    case RestoreRequest(id, v) => (match Restored(s, id, v) case Ok(s') => s' case Err(_) => s)
  }

  function HandledAll(s: State, qs: seq<Request>): State {
    if qs == [] then s else Handled(HandledAll(s, qs[..|qs| - 1]), qs[|qs| - 1])
  }

  lemma HandledKeeps(s: State, q: Request)
    requires Inv(s)
    ensures Inv(Handled(s, q)) && s.snapshots <= Handled(s, q).snapshots
  {
    var s' := Handled(s, q);
    if s' != s {
      var id := q.id;
      SavedKeeps(s, id, s'.docs[id], s'.snapshots[|s.snapshots|].note);
    }
  }

  lemma {:induction false} InvAlong(qs: seq<Request>)
    ensures Inv(HandledAll(EMPTY, qs))
  {
    if qs != [] {
      InvAlong(qs[..|qs| - 1]);
      HandledKeeps(HandledAll(EMPTY, qs[..|qs| - 1]), qs[|qs| - 1]);
    }
  }

  lemma {:induction false} SnapshotsGrow(qs: seq<Request>, earlier: nat)
    requires earlier <= |qs|
    ensures HandledAll(EMPTY, qs[..earlier]).snapshots <= HandledAll(EMPTY, qs).snapshots
    decreases |qs|
  {
    hide Handled, Inv;
    var n := |qs| - 1;
    if earlier == |qs| {
      assert qs[..earlier] == qs;
    } else {
      assert HandledAll(EMPTY, qs) == Handled(HandledAll(EMPTY, qs[..n]), qs[n]);
      SnapshotsGrow(qs[..n], earlier);
      assert qs[..n][..earlier] == qs[..earlier];
      InvAlong(qs[..n]);
      HandledKeeps(HandledAll(EMPTY, qs[..n]), qs[n]);
    }
  }

  /** Main result over every run: each history holds exactly one snapshot for each version, the
      newest is the current text, and the table of snapshots only ever grows. */
  lemma HistoriesAreComplete(qs: seq<Request>, earlier: nat)
    requires earlier <= |qs|
    ensures Inv(HandledAll(EMPTY, qs))
    ensures HandledAll(EMPTY, qs[..earlier]).snapshots <= HandledAll(EMPTY, qs).snapshots
  {
    InvAlong(qs);
    SnapshotsGrow(qs, earlier);
  }

  /** In a complete history a version is found exactly when it is between 1 and the current
      one, and it is that one. */
  lemma VersionFound(s: State, id: DocId, v: nat)
    requires Inv(s) && id in s.docs
    ensures FindVersion(s.snapshots, id, v)
            == if 1 <= v <= s.docs[id].version then Some(History(s.snapshots, id)[v - 1]) else None
  {
    hide History, FindVersion;
    var h, r := History(s.snapshots, id), FindVersion(s.snapshots, id, v);
    assert DocumentOk(s, id);
    assert 1 <= v <= s.docs[id].version ==> h[v - 1] in h && h[v - 1].version == v;
    if r.Some? {
      assert r.value in h;
      var k :| 0 <= k < |h| && h[k] == r.value;
      assert h[k].version == k + 1;
    }
  }

  /** Main result: restoring succeeds exactly for the versions 1 to the current one, and makes
      the text that of the version. */
  lemma RestoreExact(s: State, id: DocId, v: nat)
    requires Inv(s) && id in s.docs
    ensures Restored(s, id, v).Ok? <==> 1 <= v <= s.docs[id].version
    ensures Restored(s, id, v).Ok? ==>
              var d, x := Restored(s, id, v).value.docs[id], History(s.snapshots, id)[v - 1];
              d == Document(x.title, x.content, s.docs[id].version + 1)
  {
    VersionFound(s, id, v);
  }

  lemma RestoredNext(s: State, id: DocId, v: nat)
    requires Inv(s) && id in s.docs && Restored(s, id, v).Ok?
    ensures var s1 := Restored(s, id, v).value;
            Inv(s1) && id in s1.docs && s1.docs[id].version == s.docs[id].version + 1
            && History(s1.snapshots, id) == History(s.snapshots, id) + [SnapshotOf(id, s1.docs[id], RESTORED)]
  {
    var d := Restored(s, id, v).value.docs[id];
    SavedOwn(s, id, d, RESTORED);
    SavedKeeps(s, id, d, RESTORED);
  }

  /** The snapshot of the version that was current before one more was saved. */
  lemma PreviousVersion(s: State, id: DocId, s1: State)
    requires id in s.docs && DocumentOk(s, id)
    requires id in s1.docs && History(s.snapshots, id) <= History(s1.snapshots, id)
    ensures |History(s1.snapshots, id)| >= s.docs[id].version >= 1
    ensures var x := History(s1.snapshots, id)[s.docs[id].version - 1];
            x.title == s.docs[id].title && x.content == s.docs[id].content
  {
    hide History;
  }

  /** Main result: restoring the version that was current before brings the text back. */
  lemma RestoreIsUndone(s: State, id: DocId, v: nat, s1: State)
    requires Inv(s) && id in s.docs && Restored(s, id, v) == Ok(s1)
    ensures var was := s.docs[id];
            Restored(s1, id, was.version).Ok?
            && Restored(s1, id, was.version).value.docs[id] == was.(version := was.version + 2)
  {
    hide History, FindVersion, Restored;
    var was := s.docs[id];
    RestoredNext(s, id, v);
    PreviousVersion(s, id, s1);
    RestoreExact(s1, id, was.version);
  }
}
