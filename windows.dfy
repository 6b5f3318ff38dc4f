/** Finding the Notepad window (`is_notepad_open`, `get_notepad_window`) and the pointer
    test (`is_cursor_in_window`). Window enumeration is an oracle: each library call is
    given as the list it returned, or `None` where it raised. */
module Windows {

  import opened Wrappers
  import opened Text

  /** A top-level window as pygetwindow reports it. */
  datatype Window = Window(title: string, left: int, top: int, right: int, bottom: int)

  datatype Point = Point(x: int, y: int)

  const NotepadTitle: string := "Notepad"
  /** 记事本, the title of Notepad on a Chinese system. */
  const LocalTitle: string := "\U{8BB0}\U{4E8B}\U{672C}"

  /** The result of one enumeration call, `None` when the call raised. */
  type Enumeration = Option<seq<Window>>

  /** The elements of `s` that satisfy `p`, in their order. */
  function Filter<T(==, !new)>(p: T -> bool, s: seq<T>): (r: seq<T>)
    ensures |r| <= |s|
    ensures forall x :: x in r <==> x in s && p(x)
  {
    if s == [] then [] else (if p(s[0]) then [s[0]] else []) + Filter(p, s[1..])
  }

  /** The first element of the filtered list is the first element of `s` that matches. */
  lemma {:induction false} FilterHead<T(!new)>(p: T -> bool, s: seq<T>, i: nat)
    requires i < |s| && p(s[i])
    requires forall j :: 0 <= j < i ==> !p(s[j])
    ensures Filter(p, s) != [] && Filter(p, s)[0] == s[i]
  {
    if i > 0 {
      FilterHead(p, s[1..], i - 1);
    }
  }

  /** The test of the comprehension in `get_notepad_window`. */
  predicate MentionsNotepad(w: Window) {
    Contains(w.title, NotepadTitle) || Contains(w.title, LocalTitle)
  }

  /** `is_notepad_open`: the `'Notepad'` enumeration returned at least one window; a
      raising call reads as closed. */
  predicate IsNotepadOpen(byTitle: Enumeration) {
    byTitle.Some? && byTitle.value != []
  }

  /** The three enumerations `get_notepad_window` may make, in order. */
  datatype Lookup = Lookup(byTitle: Enumeration, byLocalTitle: Enumeration, all: Enumeration)

  /** `get_notepad_window`: the first window of the first non-empty list, trying the
      `'Notepad'` list, then the `'记事本'` list, then every window whose title mentions
      either; `None` when all are empty or a call raised before a window was chosen. */
  function GetNotepadWindow(q: Lookup): (r: Option<Window>)
  {
    match q.byTitle
    case None => None
    case Some(first) =>
      if first != [] then Some(first[0])
      else match q.byLocalTitle
        case None => None
        case Some(second) =>
          if second != [] then Some(second[0])
          else match q.all
            case None => None
            case Some(all) =>
              var mentioned := Filter(MentionsNotepad, all);
              if mentioned != [] then Some(mentioned[0]) else None
  }

  /** The priority among the three lists, and when nothing is found. */
  lemma GetNotepadWindowPriority(q: Lookup)
    ensures q.byTitle.Some? && q.byTitle.value != [] ==> GetNotepadWindow(q) == Some(q.byTitle.value[0])
    ensures q.byTitle == Some([]) && q.byLocalTitle.Some? && q.byLocalTitle.value != [] ==>
      GetNotepadWindow(q) == Some(q.byLocalTitle.value[0])
    ensures q.byTitle == Some([]) && q.byLocalTitle == Some([]) && q.all.Some? ==>
      (GetNotepadWindow(q).Some? <==> exists w :: w in q.all.value && MentionsNotepad(w))
    ensures q.byTitle.Some? && q.byLocalTitle.Some? && q.all.Some? ==>
      (GetNotepadWindow(q).None? <==>
        q.byTitle.value == [] && q.byLocalTitle.value == [] && Filter(MentionsNotepad, q.all.value) == [])
    ensures GetNotepadWindow(q).Some? ==>
      var w := GetNotepadWindow(q).value;
      (q.byTitle.Some? && w in q.byTitle.value) ||
      (q.byLocalTitle.Some? && w in q.byLocalTitle.value) ||
      (q.all.Some? && w in q.all.value && MentionsNotepad(w))
  {
    if q.byTitle == Some([]) && q.byLocalTitle == Some([]) && q.all.Some? {
      var mentioned := Filter(MentionsNotepad, q.all.value);
      if mentioned != [] {
        assert mentioned[0] in mentioned;
      }
    }
  }

  /** In the fallback scan the window chosen is the first one, in enumeration order,
      whose title mentions Notepad. */
  lemma FallbackPicksFirstMention(q: Lookup, i: nat)
    requires q.byTitle == Some([]) && q.byLocalTitle == Some([]) && q.all.Some?
    requires i < |q.all.value| && MentionsNotepad(q.all.value[i])
    requires forall j :: 0 <= j < i ==> !MentionsNotepad(q.all.value[j])
    ensures GetNotepadWindow(q) == Some(q.all.value[i])
  {
    FilterHead(MentionsNotepad, q.all.value, i);
  }

  /** `gw.getWindowsWithTitle(hint)` over a snapshot of the desktop, for a title-match
      rule the library does not expose. */
  function WithTitle(matches: (string, string) -> bool, hint: string, desktop: seq<Window>): (r: seq<Window>)
    ensures forall w :: w in r <==> w in desktop && matches(hint, w.title)
  {
    Filter((w: Window) => matches(hint, w.title), desktop)
  }

  /** The three enumerations made against one unchanging desktop. */
  function SnapshotLookup(matches: (string, string) -> bool, desktop: seq<Window>): Lookup
  {
    Lookup(Some(WithTitle(matches, NotepadTitle, desktop)),
           Some(WithTitle(matches, LocalTitle, desktop)),
           Some(desktop))
  }

  /** Against one desktop, whatever the match rule: the window found is on the desktop,
      and none is found exactly when no window matches either hint and none mentions
      Notepad. `is_notepad_open` sees only the `'Notepad'` hint, and when it holds the
      window found is the first `'Notepad'` match. */
  lemma SnapshotLocate(matches: (string, string) -> bool, desktop: seq<Window>)
    ensures GetNotepadWindow(SnapshotLookup(matches, desktop)).Some? ==>
      GetNotepadWindow(SnapshotLookup(matches, desktop)).value in desktop
    ensures GetNotepadWindow(SnapshotLookup(matches, desktop)).None? <==>
      forall w :: w in desktop ==>
        !matches(NotepadTitle, w.title) && !matches(LocalTitle, w.title) && !MentionsNotepad(w)
    ensures IsNotepadOpen(Some(WithTitle(matches, NotepadTitle, desktop))) <==>
      exists w :: w in desktop && matches(NotepadTitle, w.title)
    ensures IsNotepadOpen(Some(WithTitle(matches, NotepadTitle, desktop))) ==>
      && GetNotepadWindow(SnapshotLookup(matches, desktop)) == Some(WithTitle(matches, NotepadTitle, desktop)[0])
      && matches(NotepadTitle, GetNotepadWindow(SnapshotLookup(matches, desktop)).value.title)
  {
    var q := SnapshotLookup(matches, desktop);
    GetNotepadWindowPriority(q);
    var first := WithTitle(matches, NotepadTitle, desktop);
    var second := WithTitle(matches, LocalTitle, desktop);
    var third := Filter(MentionsNotepad, desktop);
    if first != [] { assert first[0] in first; }
    if second != [] { assert second[0] in second; }
    if third != [] { assert third[0] in third; }
  }

  /** `is_cursor_in_window`: the pointer lies strictly inside the window's rectangle; a
      failed pointer read (`None`) counts as outside. */
  predicate IsCursorInWindow(w: Window, pointer: Option<Point>) {
    pointer.Some? && w.left < pointer.value.x < w.right && w.top < pointer.value.y < w.bottom
  }

  /** A point on any of the four edges is outside. */
  lemma EdgeIsOutside(w: Window, p: Point)
    requires p.x == w.left || p.x == w.right || p.y == w.top || p.y == w.bottom
    ensures !IsCursorInWindow(w, Some(p))
  {
  }

  /** Containment is strict: only a window at least two units wide and high can contain
      the pointer, and then its corner-adjacent point is inside. */
  lemma InteriorNonEmptyIff(w: Window)
    ensures (exists p :: IsCursorInWindow(w, Some(p))) <==> w.right - w.left >= 2 && w.bottom - w.top >= 2
  {
    if w.right - w.left >= 2 && w.bottom - w.top >= 2 {
      assert IsCursorInWindow(w, Some(Point(w.left + 1, w.top + 1)));
    }
  }
}
