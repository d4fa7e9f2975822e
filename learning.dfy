/**
  The lessons page: seventeen lesson cards, each opened and closed by a click
  on its header, with a badge coloured by the lesson's level.
 */
module Learning {
  import opened Wrappers

  /** A lesson card as far as the accordion sees it. `open` is an optional
      property: absent (`undefined`), or a boolean. The texts are not modelled. */
  datatype Lesson = Lesson(id: int, level: string, open: Option<bool>)

  /** JavaScript truthiness of `lesson.open`: only `true` shows the card open. */
  predicate IsOpen(l: Lesson) {
    l.open == Some(true)
  }

  /** The initial `lessons` state (app/learning/page.tsx, lines 24-243): ids 1
      to 17 in order, and only the first lesson declares `open: true`. */
  const Lessons: seq<Lesson> := [
    Lesson(1, "Beginner", Some(true)),
    Lesson(2, "Beginner", None),
    Lesson(3, "Beginner", None),
    Lesson(4, "Beginner \U{2192} Intermediate", None),
    Lesson(5, "Beginner", None),
    Lesson(6, "Intermediate", None),
    Lesson(7, "Intermediate", None),
    Lesson(8, "Intermediate", None),
    Lesson(9, "Intermediate", None),
    Lesson(10, "Intermediate", None),
    Lesson(11, "Advanced", None),
    Lesson(12, "Advanced", None),
    Lesson(13, "Design", None),
    Lesson(14, "Security", None),
    Lesson(15, "Advanced", None),
    Lesson(16, "Advanced", None),
    Lesson(17, "Summary", None)
  ]

  predicate UniqueIds(ls: seq<Lesson>) {
    forall i, j :: 0 <= i < j < |ls| ==> ls[i].id != ls[j].id
  }

  // ---------------------------------------------------------------------------
  // toggleLesson

  /** `lesson.id === id ? { ...lesson, open: !lesson.open } : lesson`. */
  function Toggle(l: Lesson, id: int): Lesson {
    if l.id == id then l.(open := Some(!IsOpen(l))) else l
  }

  /** `lessons.map(...)`: the new state after a click on lesson `id`. */
  function ToggleLesson(ls: seq<Lesson>, id: int): (r: seq<Lesson>)
    ensures |r| == |ls|
    ensures forall i :: 0 <= i < |ls| ==> r[i] == Toggle(ls[i], id)
  {
    seq(|ls|, i requires 0 <= i < |ls| => Toggle(ls[i], id))
  }

  /** The list keeps its length and order; a lesson whose id is `id` has its
      open state negated, and nothing else about any lesson changes. */
  lemma ToggleMeaning(ls: seq<Lesson>, id: int)
    ensures var r := ToggleLesson(ls, id);
      && |r| == |ls|
      && (forall i :: 0 <= i < |ls| ==> r[i].id == ls[i].id && r[i].level == ls[i].level)
      && (forall i :: 0 <= i < |ls| ==> (IsOpen(r[i]) <==> (IsOpen(ls[i]) != (ls[i].id == id))))
      && (forall i :: 0 <= i < |ls| ==> (r[i] != ls[i] <==> ls[i].id == id))
  {
  }

  /** The indices of the lessons a click changes. */
  function Changed(ls: seq<Lesson>, r: seq<Lesson>): set<nat>
    requires |r| == |ls|
  {
    set i: nat | i < |ls| && r[i] != ls[i]
  }

  /** With unique ids, a click on an existing id changes exactly that one
      lesson, and a click on an unknown id changes none. */
  lemma ToggleChangesOne(ls: seq<Lesson>, id: int)
    requires UniqueIds(ls)
    ensures forall k :: 0 <= k < |ls| && ls[k].id == id ==> Changed(ls, ToggleLesson(ls, id)) == {k}
    ensures (forall k :: 0 <= k < |ls| ==> ls[k].id != id) ==> ToggleLesson(ls, id) == ls
  {
    var r := ToggleLesson(ls, id);
    ToggleMeaning(ls, id);
    forall k | 0 <= k < |ls| && ls[k].id == id ensures Changed(ls, r) == {k} {
      forall i: nat | i < |ls| ensures i in Changed(ls, r) <==> i == k {
        if i < k {
          assert ls[i].id != ls[k].id;
        } else if k < i {
          assert ls[k].id != ls[i].id;
        }
      }
    }
  }

  /** Two clicks on the same lesson restore whether every card is open
      (an absent `open` comes back as `false`, which reads the same). */
  lemma ToggleTwice(ls: seq<Lesson>, id: int)
    ensures var r := ToggleLesson(ToggleLesson(ls, id), id);
      |r| == |ls| && forall i :: 0 <= i < |ls| ==> (IsOpen(r[i]) <==> IsOpen(ls[i])) && r[i].id == ls[i].id
  {
    ToggleMeaning(ls, id);
    ToggleMeaning(ToggleLesson(ls, id), id);
  }

  /** The initial ids are 1 to 17, so they are unique, and only the first
      lesson starts open. */
  lemma InitialLessons()
    ensures |Lessons| == 17
    ensures forall i :: 0 <= i < |Lessons| ==> Lessons[i].id == i + 1
    ensures UniqueIds(Lessons)
    ensures forall i :: 0 <= i < |Lessons| ==> (IsOpen(Lessons[i]) <==> i == 0)
  {
  }

  /** A click on a lesson header opens a closed lesson and closes an open one,
      leaving the other sixteen as they were. */
  lemma ClickOnInitial(k: nat)
    requires k < |Lessons|
    ensures var r := ToggleLesson(Lessons, k + 1);
      && (IsOpen(r[k]) <==> k != 0)
      && forall i :: 0 <= i < |Lessons| && i != k ==> r[i] == Lessons[i]
  {
    InitialLessons();
    ToggleChangesOne(Lessons, k + 1);
    var r := ToggleLesson(Lessons, k + 1);
    assert Changed(Lessons, r) == {k};
    forall i | 0 <= i < |Lessons| && i != k ensures r[i] == Lessons[i] {
      assert i !in Changed(Lessons, r);
    }
  }

  // ---------------------------------------------------------------------------
  // getLevelVariant

  /** The badge variants the page uses. */
  datatype Variant = Default | Secondary | Destructive | Outline

  /** `getLevelVariant` (app/learning/page.tsx, lines 269-279). */
  function LevelVariant(level: string): (v: Variant)
    ensures level == "Intermediate" || level == "Summary" <==> v == Secondary
    ensures level == "Advanced" <==> v == Destructive
    ensures level == "Design" || level == "Security" <==> v == Outline
    ensures v == Default <==> level !in {"Intermediate", "Summary", "Advanced", "Design", "Security"}
  {
    match level
    case "Beginner" => Default
    case "Intermediate" => Secondary
    case "Advanced" => Destructive
    case "Design" => Outline
    case "Security" => Outline
    case "Summary" => Secondary
    case _ => Default
  }

  /** The mixed level of lesson 4 is none of the listed cases, so its badge
      falls back to the default variant, like a beginner lesson. */
  lemma InitialVariants()
    ensures LevelVariant(Lessons[3].level) == LevelVariant("Beginner") == Default
    ensures LevelVariant(Lessons[12].level) == LevelVariant(Lessons[13].level) == Outline
  {
  }
}
