/**
 * The step rules of the `StackNote` and `ResizableNote` components
 * (src/components/Notes.tsx): the re-render counters that wrap around, and
 * the debounced rules that write a note's content and geometry back to the
 * table and to the reducer only when they changed.
 */
module Components {
  import opened NoteModel
  import NotesReducer
  import Resizable

  /** `StackNote` resets its counter once it exceeds 20. */
  const StackNoteWrap := 20
  /** `ResizableNote` resets its counter once it exceeds 50. */
  const ResizableNoteWrap := 50

  /** The updater `o => { if (o > wrap) o = 0; return o + 1; }`. */
  function NextCount(o: int, wrap: nat): (r: int)
    ensures 0 <= o <= wrap + 1 ==> 1 <= r <= wrap + 1
  {
    var reset := if o > wrap then 0 else o;
    reset + 1
  }

  /** The counter's value after `n` updates from its initial value 0. */
  ghost function CountAfter(wrap: nat, n: nat): int
  {
    if n == 0 then 0 else NextCount(CountAfter(wrap, n - 1), wrap)
  }

  /** The first wrap + 1 updates count 1, 2, .., wrap + 1. */
  lemma {:induction false} CountAfterRisesToWrap(wrap: nat, n: nat)
    requires n <= wrap + 1
    ensures CountAfter(wrap, n) == n
  {
    if n > 0 {
      CountAfterRisesToWrap(wrap, n - 1);
    }
  }

  /** From the first update on, the counter repeats with period wrap + 1. */
  lemma {:induction false} CountAfterPeriodic(wrap: nat, n: nat)
    requires n >= 1
    ensures CountAfter(wrap, n + wrap + 1) == CountAfter(wrap, n)
  {
    if n == 1 {
      CountAfterRisesToWrap(wrap, wrap + 1);
      CountAfterRisesToWrap(wrap, 1);
    } else {
      CountAfterPeriodic(wrap, n - 1);
      assert CountAfter(wrap, n + wrap + 1) == NextCount(CountAfter(wrap, n - 1 + wrap + 1), wrap);
    }
  }

  /** After any number n >= 1 of updates from 0 the counter lies in 1 .. wrap + 1. */
  lemma {:induction false} CountAfterInRange(wrap: nat, n: nat)
    requires n >= 1
    ensures 1 <= CountAfter(wrap, n) <= wrap + 1
  {
    if n == 1 {
      CountAfterRisesToWrap(wrap, 1);
    } else {
      CountAfterInRange(wrap, n - 1);
    }
  }

  /** The note's geometry as a `Geom`. */
  function GeomOf(n: Note): Resizable.Geom
  {
    Resizable.Geom(n.x, n.y, n.width, n.height)
  }

  /** The note with its position and size taken from `g`, all else kept. */
  function WithGeom(n: Note, g: Resizable.Geom): (r: Note)
    ensures GeomOf(r) == g
    ensures r.(x := n.x, y := n.y, width := n.width, height := n.height) == n
  {
    n.(x := g.x, y := g.y, width := g.width, height := g.height)
  }

  /**
   * The note both "add" buttons create: no id yet (the table assigns one),
   * empty content, closed (`open` is false), at the origin, 220 by 200.
   * That size meets the drag handler's resize minimum.
   */
  function NewNote(color: NoteType, createdDate: string): (r: Note)
    ensures r.id == None && r.content == "" && !r.open
    ensures r.color == color && r.createdDate == createdDate
    ensures r.x == 0 && r.y == 0 && r.width == 220 && r.height == 200
    ensures Resizable.MinSize(GeomOf(r))
  {
    Note(None, "", createdDate, color, false, 0, 0, 220, 200)
  }

  /** The hover state of a `StackNote`. */
  class StackNoteState {
    var count: int
    var openMenu: bool
    ghost var updates: nat

    ghost predicate Valid()
      reads this
    {
      count == CountAfter(StackNoteWrap, updates)
    }

    constructor ()
      ensures Valid() && count == 0 && updates == 0 && !openMenu
    {
      count, openMenu, updates := 0, false, 0;
    }

    /** Both `onMouseEnter` and `onMouseLeave`: bump the counter, close the menu. */
    method Hover()
      requires Valid()
      modifies this
      ensures Valid() && updates == old(updates) + 1
      ensures count == NextCount(old(count), StackNoteWrap) && !openMenu
      ensures 1 <= count <= StackNoteWrap + 1
    {
      count := NextCount(count, StackNoteWrap);
      openMenu := false;
      updates := updates + 1;
      CountAfterInRange(StackNoteWrap, updates);
    }
  }

  /**
   * The state a `ResizableNote` touches: the note object it was given (and
   * mutates in place), its counter, its spring, the reducer's list and the
   * notes handed to `updateNotes`, in call order.
   */
  class ResizableNoteState {
    var note: Note
    var count: int
    ghost var updates: nat
    const spring: Resizable.Spring
    var notes: seq<Note>
    var saved: seq<Note>
    /** `dispatch !== null`: whether the component sits inside the provider. */
    const hasDispatch: bool

    ghost predicate Valid()
      reads this
    {
      count == CountAfter(ResizableNoteWrap, updates)
    }

    /** Mounting: the spring starts at the note's stored position and size. */
    constructor (note: Note, notes: seq<Note>, hasDispatch: bool)
      ensures Valid() && updates == 0 && count == 0
      ensures this.note == note && this.notes == notes && saved == []
      ensures this.hasDispatch == hasDispatch
      ensures fresh(spring) && spring.Current() == GeomOf(note)
    {
      this.note := note;
      this.notes := notes;
      this.hasDispatch := hasDispatch;
      count, updates, saved := 0, 0, [];
      spring := new Resizable.Spring(note.x, note.y, note.width, note.height);
    }

    /** The spring's `onChange`: bump the counter (the debounced sync then follows). */
    method OnChange()
      requires Valid()
      modifies this
      ensures Valid() && updates == old(updates) + 1
      ensures count == NextCount(old(count), ResizableNoteWrap)
      ensures 1 <= count <= ResizableNoteWrap + 1
      ensures note == old(note) && notes == old(notes) && saved == old(saved)
    {
      count := NextCount(count, ResizableNoteWrap);
      updates := updates + 1;
      CountAfterInRange(ResizableNoteWrap, updates);
    }

    /**
     * `debounce2`: when the note's position or size differs from the
     * spring's, copy the spring's into the note, persist it and dispatch
     * UPDATE; otherwise do nothing.
     */
    method SyncGeometry() returns (written: bool)
      modifies this
      ensures written <==> hasDispatch && GeomOf(old(note)) != spring.Current()
      ensures written ==>
        note == WithGeom(old(note), spring.Current()) &&
        saved == old(saved) + [note] &&
        notes == NotesReducer.Reduce(old(notes), NotesReducer.Action(NotesReducer.Update, note))
      ensures !written ==> note == old(note) && notes == old(notes) && saved == old(saved)
      ensures hasDispatch ==> GeomOf(note) == spring.Current()
      ensures count == old(count) && updates == old(updates)
    {
      written := false;
      if hasDispatch {
        if note.x != spring.x || note.y != spring.y ||
           note.width != spring.width || note.height != spring.height
        {
          note := note.(x := spring.x);
          note := note.(y := spring.y);
          note := note.(width := spring.width);
          note := note.(height := spring.height);
          saved := saved + [note];
          notes := NotesReducer.Reduce(notes, NotesReducer.Action(NotesReducer.Update, note));
          written := true;
        }
      }
    }

    /**
     * `debounce`: when the editor's HTML differs from the note's content,
     * store it in the note, persist it and dispatch UPDATE; otherwise do
     * nothing.
     */
    method SyncContent(html: string) returns (written: bool)
      modifies this
      ensures written <==> hasDispatch && old(note).content != html
      ensures written ==>
        note == old(note).(content := html) &&
        saved == old(saved) + [note] &&
        notes == NotesReducer.Reduce(old(notes), NotesReducer.Action(NotesReducer.Update, note))
      ensures !written ==> note == old(note) && notes == old(notes) && saved == old(saved)
      ensures hasDispatch ==> note.content == html
      ensures count == old(count) && updates == old(updates)
    {
      written := false;
      if hasDispatch {
        if note.content != html {
          note := note.(content := html);
          saved := saved + [note];
          notes := NotesReducer.Reduce(notes, NotesReducer.Action(NotesReducer.Update, note));
          written := true;
        }
      }
    }
  }

  /**
   * After a geometry write, every note of the reducer's list that shares the
   * note's id has the spring's position and size, and the others are untouched.
   */
  lemma SyncedGeometryReachesList(before: seq<Note>, n: Note, g: Resizable.Geom)
    ensures var after := NotesReducer.Reduce(before, NotesReducer.Action(NotesReducer.Update, WithGeom(n, g)));
      |after| == |before| &&
      forall i :: 0 <= i < |before| ==>
        if before[i].id == n.id then GeomOf(after[i]) == g else after[i] == before[i]
  {
  }

  /**
   * "Write only if changed": right after a sync, a second sync of the same
   * state writes nothing.
   */
  method SyncGeometryTwice(r: ResizableNoteState) returns (first: bool, second: bool)
    modifies r
    ensures first <==> r.hasDispatch && GeomOf(old(r.note)) != r.spring.Current()
    ensures !second
    ensures r.note == (if first then WithGeom(old(r.note), r.spring.Current()) else old(r.note))
    ensures r.saved == old(r.saved) + (if first then [r.note] else [])
    ensures first ==> r.notes == NotesReducer.Reduce(old(r.notes), NotesReducer.Action(NotesReducer.Update, r.note))
    ensures !first ==> r.notes == old(r.notes)
  {
    first := r.SyncGeometry();
    second := r.SyncGeometry();
  }

  method SyncContentTwice(r: ResizableNoteState, html: string) returns (first: bool, second: bool)
    modifies r
    ensures first <==> r.hasDispatch && old(r.note).content != html
    ensures !second
    ensures r.note == (if first then old(r.note).(content := html) else old(r.note))
    ensures r.saved == old(r.saved) + (if first then [r.note] else [])
    ensures first ==> r.notes == NotesReducer.Reduce(old(r.notes), NotesReducer.Action(NotesReducer.Update, r.note))
    ensures !first ==> r.notes == old(r.notes)
  {
    first := r.SyncContent(html);
    second := r.SyncContent(html);
  }

  /**
   * One drag event end to end: the handler sets the spring; only when that
   * changes the spring does its `onChange` fire, bumping the counter, with
   * the debounced geometry sync following. A rejected resize sets nothing,
   * so nothing else happens. When a dispatcher exists, the note ends with
   * the geometry the drag step gives.
   */
  method DragThenSync(r: ResizableNoteState, resizing: bool, ox: int, oy: int)
    returns (changed: bool, written: bool)
    requires r.Valid()
    modifies r, r.spring
    ensures r.spring.Current() == Resizable.DragStep(old(r.spring.Current()), resizing, ox, oy)
    ensures changed <==> r.spring.Current() != old(r.spring.Current())
    ensures r.Valid() && r.updates == old(r.updates) + (if changed then 1 else 0)
    ensures !changed ==> r.count == old(r.count)
    ensures changed ==> r.count == NextCount(old(r.count), ResizableNoteWrap)
    ensures changed && r.hasDispatch ==>
      GeomOf(r.note) == Resizable.DragStep(old(r.spring.Current()), resizing, ox, oy)
    ensures written <==> changed && r.hasDispatch && GeomOf(old(r.note)) != r.spring.Current()
    ensures written ==>
      r.saved == old(r.saved) + [r.note] &&
      r.notes == NotesReducer.Reduce(old(r.notes), NotesReducer.Action(NotesReducer.Update, r.note))
    ensures !written ==> r.note == old(r.note) && r.notes == old(r.notes) && r.saved == old(r.saved)
  {
    var before := r.spring.Current();
    r.spring.Drag(resizing, ox, oy);
    changed := r.spring.Current() != before;
    written := false;
    if changed {
      r.OnChange();
      written := r.SyncGeometry();
    }
  }

  /** A resize to 100 by 100 is rejected: no change handler, no sync, no write. */
  method RejectedResizeIsSilent(r: ResizableNoteState) returns (changed: bool, written: bool)
    requires r.Valid()
    modifies r, r.spring
    ensures !changed && !written
    ensures r.spring.Current() == old(r.spring.Current())
    ensures r.count == old(r.count) && r.updates == old(r.updates)
    ensures r.note == old(r.note) && r.notes == old(r.notes) && r.saved == old(r.saved)
  {
    changed, written := DragThenSync(r, true, 100, 100);
  }
}
