/**
 * The notes reducer (src/hooks/index.ts): a pure transition function over
 * the list of notes, driven by four kinds of action.
 */
module NotesReducer {
  import opened NoteModel

  /** The action kinds of `NoteActionType`. */
  datatype ActionType = Add | Update | Delete | Open

  datatype Action = Action(kind: ActionType, payload: Note)

  /** The string value each enum member carries at run time. */
  function TypeName(t: ActionType): (s: string)
    ensures s in {"ADD", "UPDATE", "DELETE", "OPEN"}
  {
    match t
    case Add => "ADD"
    case Update => "UPDATE"
    case Delete => "DELETE"
    case Open => "OPEN"
  }

  /** Recognises the run-time `type` string of an action. */
  function ParseType(s: string): (r: Option<ActionType>)
    ensures r.Some? ==> TypeName(r.value) == s
    ensures r.None? ==> forall t :: TypeName(t) != s
  {
    if s == "ADD" then Some(Add)
    else if s == "UPDATE" then Some(Update)
    else if s == "DELETE" then Some(Delete)
    else if s == "OPEN" then Some(Open)
    else None
  }

  /** The enum's string values identify its members uniquely. */
  lemma ParseTypeName(t: ActionType)
    ensures ParseType(TypeName(t)) == Some(t)
  {
  }

  /**
   * `notes.map(note => note.id === p.id ? p : note)`: every note whose
   * (optional) id equals the payload's is replaced by the payload.
   */
  function ReplaceMatching(notes: seq<Note>, p: Note): (r: seq<Note>)
    ensures |r| == |notes|
    ensures forall i :: 0 <= i < |notes| ==>
      r[i] == (if notes[i].id == p.id then p else notes[i])
  {
    if notes == [] then []
    else [if notes[0].id == p.id then p else notes[0]] + ReplaceMatching(notes[1..], p)
  }

  /**
   * `notes.filter(t => t.id !== id)`: the notes whose id differs from `id`,
   * in their original order.
   */
  function RemoveMatching(notes: seq<Note>, id: Option<int>): (r: seq<Note>)
    ensures |r| <= |notes|
    ensures forall n :: n in r ==> n in notes && n.id != id
    ensures forall n :: n in notes && n.id != id ==> n in r
  {
    if notes == [] then []
    else
      var last := notes[|notes| - 1];
      RemoveMatching(notes[..|notes| - 1], id) + (if last.id != id then [last] else [])
  }

  /**
   * The positions of `notes` that a filter on `id` keeps, in increasing
   * order: an index-level reference for `RemoveMatching`.
   */
  function KeptIndices(notes: seq<Note>, id: Option<int>): (ks: seq<nat>)
    ensures forall j :: 0 <= j < |ks| ==> ks[j] < |notes| && notes[ks[j]].id != id
    ensures forall j, k :: 0 <= j < k < |ks| ==> ks[j] < ks[k]
    ensures forall i :: 0 <= i < |notes| && notes[i].id != id ==> i in ks
  {
    if notes == [] then []
    else
      var n := |notes| - 1;
      KeptIndices(notes[..n], id) + (if notes[n].id != id then [n] else [])
  }

  /** The reducer on a well-typed action. */
  function Reduce(notes: seq<Note>, a: Action): (r: seq<Note>)
    ensures a.kind == Add ==>
      |r| == |notes| + 1 && r[..|notes|] == notes && r[|notes|] == a.payload
    ensures a.kind == Update || a.kind == Open ==>
      |r| == |notes| &&
      forall i :: 0 <= i < |notes| ==>
        r[i] == (if notes[i].id == a.payload.id then a.payload else notes[i])
    ensures a.kind == Delete ==>
      |r| <= |notes| &&
      (forall n :: n in r ==> n in notes && n.id != a.payload.id) &&
      (forall n :: n in notes && n.id != a.payload.id ==> n in r)
  {
    match a.kind
    case Add => notes + [a.payload]
    case Update => ReplaceMatching(notes, a.payload)
    case Delete => RemoveMatching(notes, a.payload.id)
    case Open => ReplaceMatching(notes, a.payload)
  }

  /**
   * The reducer on an action whose `type` is an arbitrary run-time string:
   * anything but the four enum values throws `Unknown action: <type>`.
   */
  function ReduceUntyped(notes: seq<Note>, kind: string, payload: Note): (r: Result<seq<Note>, string>)
    ensures r.Ok? <==> kind in {"ADD", "UPDATE", "DELETE", "OPEN"}
    ensures r.Ok? ==> exists t :: TypeName(t) == kind && r.value == Reduce(notes, Action(t, payload))
    ensures r.Err? ==> r.error == "Unknown action: " + kind
  {
    match ParseType(kind)
    case Some(t) => Ok(Reduce(notes, Action(t, payload)))
    case None => Err("Unknown action: " + kind)
  }

  /** OPEN and UPDATE are the same transition. */
  lemma OpenIsUpdate(notes: seq<Note>, p: Note)
    ensures Reduce(notes, Action(Open, p)) == Reduce(notes, Action(Update, p))
  {
  }

  /** An UPDATE or OPEN whose payload id matches no note changes nothing. */
  lemma UpdateWithoutMatchIsIdentity(notes: seq<Note>, p: Note, kind: ActionType)
    requires kind == Update || kind == Open
    requires forall n :: n in notes ==> n.id != p.id
    ensures Reduce(notes, Action(kind, p)) == notes
  {
  }

  /** A filter that matches nothing keeps the whole list. */
  lemma {:induction false} RemoveWithoutMatchIsIdentity(notes: seq<Note>, id: Option<int>)
    requires forall n :: n in notes ==> n.id != id
    ensures RemoveMatching(notes, id) == notes
  {
    if notes != [] {
      var n := |notes| - 1;
      forall m | m in notes[..n] ensures m.id != id {
        assert m in notes;
      }
      RemoveWithoutMatchIsIdentity(notes[..n], id);
      assert notes[n] in notes;
      assert notes[..n] + [notes[n]] == notes;
    }
  }

  /** A DELETE whose payload id matches no note changes nothing. */
  lemma DeleteWithoutMatchIsIdentity(notes: seq<Note>, p: Note)
    requires forall n :: n in notes ==> n.id != p.id
    ensures Reduce(notes, Action(Delete, p)) == notes
  {
    RemoveWithoutMatchIsIdentity(notes, p.id);
  }

  /**
   * DELETE keeps exactly the notes whose id differs from the payload's,
   * in their original order: the j-th survivor is the note at the j-th
   * kept position.
   */
  lemma {:induction false} DeleteKeepsOrder(notes: seq<Note>, id: Option<int>)
    ensures |RemoveMatching(notes, id)| == |KeptIndices(notes, id)|
    ensures forall j :: 0 <= j < |KeptIndices(notes, id)| ==>
      RemoveMatching(notes, id)[j] == notes[KeptIndices(notes, id)[j]]
  {
    if notes != [] {
      var n := |notes| - 1;
      DeleteKeepsOrder(notes[..n], id);
      var r, ks := RemoveMatching(notes, id), KeptIndices(notes, id);
      var r', ks' := RemoveMatching(notes[..n], id), KeptIndices(notes[..n], id);
      assert r == r' + (if notes[n].id != id then [notes[n]] else []);
      assert ks == ks' + (if notes[n].id != id then [n] else []);
      forall j | 0 <= j < |ks| ensures r[j] == notes[ks[j]] {
        if j < |ks'| {
          assert r[j] == r'[j] && ks[j] == ks'[j];
          assert notes[..n][ks'[j]] == notes[ks'[j]];
        }
      }
    }
  }

  /** After a DELETE no note carries the payload's id. */
  lemma DeleteRemovesId(notes: seq<Note>, p: Note)
    ensures forall n :: n in Reduce(notes, Action(Delete, p)) ==> n.id != p.id
  {
  }

  /** Applying the same UPDATE (or OPEN) twice equals applying it once. */
  lemma UpdateIdempotent(notes: seq<Note>, p: Note, kind: ActionType)
    requires kind == Update || kind == Open
    ensures Reduce(Reduce(notes, Action(kind, p)), Action(kind, p)) == Reduce(notes, Action(kind, p))
  {
  }

  /** Applying the same DELETE twice equals applying it once. */
  lemma DeleteIdempotent(notes: seq<Note>, p: Note)
    ensures Reduce(Reduce(notes, Action(Delete, p)), Action(Delete, p)) == Reduce(notes, Action(Delete, p))
  {
    DeleteWithoutMatchIsIdentity(Reduce(notes, Action(Delete, p)), p);
  }

  /**
   * Matching is plain equality on the optional id: a payload without an id
   * replaces every id-less note, and deleting it removes every id-less note.
   */
  lemma IdlessPayloadMatchesIdlessNotes(notes: seq<Note>, p: Note)
    requires p.id == None
    ensures forall i :: 0 <= i < |notes| && notes[i].id == None ==>
      Reduce(notes, Action(Update, p))[i] == p
    ensures forall n :: n in Reduce(notes, Action(Delete, p)) ==> n.id.Some?
  {
  }
}
