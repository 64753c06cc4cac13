/** The lesson catalogue page: the fixed lesson list, the search and
    level filters, and the reset control. */
module Learn {
  import opened Wrappers

  datatype Level = Beginner | Intermediate | Advanced

  /** The text a level is shown and filtered by. */
  function LevelName(l: Level): string {
    match l
    case Beginner => "Beginner"
    case Intermediate => "Intermediate"
    case Advanced => "Advanced"
  }

  datatype Lesson = Lesson(id: string, title: string, description: string, level: Level,
                           duration: string, completed: bool)

  /** The eight lessons the page lists, in display order. */
  const Lessons: seq<Lesson> := [
    Lesson("1", "ASL Alphabet Basics",
           "Learn the foundational hand shapes for each letter of the alphabet in American Sign Language.",
           Beginner, "15 min", true),
    Lesson("2", "Common Greetings",
           "Master everyday greetings and introductions to start conversations in ASL.",
           Beginner, "20 min", true),
    Lesson("3", "Numbers and Counting",
           "Learn how to count and express numerical values in American Sign Language.",
           Beginner, "25 min", false),
    Lesson("4", "Family and Relationships",
           "Signs for family members and expressing relationships between people.",
           Intermediate, "30 min", false),
    Lesson("5", "Food and Dining",
           "Learn vocabulary related to food, drinks, and restaurant interactions.",
           Intermediate, "35 min", false),
    Lesson("6", "Travel and Directions",
           "Signs for locations, transportation, and giving/receiving directions.",
           Intermediate, "40 min", false),
    Lesson("7", "Emotional Expressions",
           "Communicate feelings and emotions with nuanced facial expressions and signs.",
           Advanced, "45 min", false),
    Lesson("8", "Medical and Emergency Terms",
           "Essential vocabulary for health-related situations and emergencies.",
           Advanced, "50 min", false)
  ]

  /** The catalogue: eight lessons with ids "1" to "8", three per level
      for the first two levels and two advanced, the first two completed. */
  lemma CatalogueShape()
    ensures |Lessons| == 8
    ensures forall i, j :: 0 <= i < j < |Lessons| ==> Lessons[i].id != Lessons[j].id
    ensures forall i :: 0 <= i < |Lessons| ==>
              Lessons[i].level == (if i < 3 then Beginner else if i < 6 then Intermediate else Advanced)
    ensures forall i :: 0 <= i < |Lessons| ==> (Lessons[i].completed <==> i < 2)
  {
  }

  // ---------------------------------------------------------------------
  // Case-insensitive search (ASCII letters only)
  // ---------------------------------------------------------------------

  function LowerChar(c: char): char {
    if 'A' <= c <= 'Z' then (c as int + 32) as char else c
  }

  /** `toLowerCase`, restricted to the ASCII letters. */
  function ToLower(s: string): (r: string)
    ensures |r| == |s|
    ensures forall i :: 0 <= i < |s| ==> r[i] == LowerChar(s[i])
  {
    if |s| == 0 then "" else [LowerChar(s[0])] + ToLower(s[1..])
  }

  /** `needle` occurs in `hay` at position `i`. */
  predicate OccursAt(hay: string, needle: string, i: nat) {
    i + |needle| <= |hay| && hay[i..i + |needle|] == needle
  }

  /** `String.prototype.includes`: a scan over every start position. */
  function Includes(hay: string, needle: string): (b: bool)
    ensures b <==> exists i: nat :: OccursAt(hay, needle, i)
    decreases |hay|
  {
    if |needle| > |hay| then
      assert forall i: nat :: !OccursAt(hay, needle, i);
      false
    else if hay[..|needle|] == needle then
      assert OccursAt(hay, needle, 0);
      true
    else
      var b := Includes(hay[1..], needle);
      if b then
        var j: nat :| OccursAt(hay[1..], needle, j);
        assert hay[1..][j..j + |needle|] == hay[j + 1..j + 1 + |needle|];
        assert OccursAt(hay, needle, j + 1);
        true
      else
        forall i: nat | OccursAt(hay, needle, i)
          ensures false
        {
          assert i != 0;
          assert hay[1..][i - 1..i - 1 + |needle|] == hay[i..i + |needle|];
          assert OccursAt(hay[1..], needle, i - 1);
        }
        false
  }

  // ---------------------------------------------------------------------
  // Filters
  // ---------------------------------------------------------------------

  /** The page's filter state: the search box and the level select
      (`string | null`, so `Some("")` is representable and counts as unset). */
  datatype Filters = Filters(query: string, level: Option<string>)

  const Unfiltered := Filters("", None)

  predicate MatchesSearch(l: Lesson, query: string)
    ensures query == "" ==> MatchesSearch(l, query)
  {
    assert OccursAt(ToLower(l.title), ToLower(""), 0);
    Includes(ToLower(l.title), ToLower(query)) || Includes(ToLower(l.description), ToLower(query))
  }

  /** A null or empty level filter is falsy and admits every lesson. */
  predicate MatchesLevel(l: Lesson, level: Option<string>)
    ensures level.Some? && level.value !in {"", "Beginner", "Intermediate", "Advanced"} ==> !MatchesLevel(l, level)
  {
    match level
    case None => true
    case Some(v) => v == "" || LevelName(l.level) == v
  }

  predicate Matches(l: Lesson, f: Filters) {
    MatchesSearch(l, f.query) && MatchesLevel(l, f.level)
  }

  /** `a` is `b` with some elements dropped and the rest in order. */
  predicate IsSubsequence<T(==)>(a: seq<T>, b: seq<T>)
    decreases |b|
  {
    if |a| == 0 then true
    else if |b| == 0 then false
    else (a[0] == b[0] && IsSubsequence(a[1..], b[1..])) || IsSubsequence(a, b[1..])
  }

  /** `lessons.filter(...)`: keeps exactly the matching lessons. */
  function Filter(ls: seq<Lesson>, f: Filters): (r: seq<Lesson>)
    ensures |r| <= |ls|
    ensures forall x :: x in r <==> x in ls && Matches(x, f)
  {
    if |ls| == 0 then []
    else
      var rest := Filter(ls[1..], f);
      assert forall x :: x in ls <==> x == ls[0] || x in ls[1..];
      if Matches(ls[0], f) then [ls[0]] + rest else rest
  }

  /** What the lesson grid shows for the current filters. */
  function Visible(f: Filters): seq<Lesson> {
    Filter(Lessons, f)
  }

  /** The filtered list keeps the catalogue's order. */
  lemma {:induction false} FilterIsSubsequence(ls: seq<Lesson>, f: Filters)
    ensures IsSubsequence(Filter(ls, f), ls)
    decreases |ls|
  {
    if |ls| > 0 {
      FilterIsSubsequence(ls[1..], f);
      var rest := Filter(ls[1..], f);
      if Matches(ls[0], f) {
        assert Filter(ls, f) == [ls[0]] + rest;
        assert ([ls[0]] + rest)[1..] == rest;
      } else if |rest| > 0 {
        assert Filter(ls, f) == rest;
      }
    }
  }

  /** With no query and no level, the filter is the identity. */
  lemma {:induction false} UnfilteredKeepsAll(ls: seq<Lesson>, level: Option<string>)
    requires level.None? || level == Some("")
    ensures Filter(ls, Filters("", level)) == ls
    decreases |ls|
  {
    if |ls| > 0 {
      UnfilteredKeepsAll(ls[1..], level);
      assert [ls[0]] + ls[1..] == ls;
    }
  }

  /** Under a level filter every shown lesson has that level. */
  lemma LevelFilterExact(ls: seq<Lesson>, f: Filters, x: Lesson)
    requires f.level.Some? && f.level.value != ""
    requires x in Filter(ls, f)
    ensures LevelName(x.level) == f.level.value
  {
  }

  /** Dropping the level filter never hides a lesson: the level-filtered
      list is a subsequence of the list for the same query alone. */
  lemma {:induction false} LevelFilterNarrows(ls: seq<Lesson>, query: string, level: Option<string>)
    ensures IsSubsequence(Filter(ls, Filters(query, level)), Filter(ls, Filters(query, None)))
    decreases |ls|
  {
    var f, g := Filters(query, level), Filters(query, None);
    if |ls| > 0 {
      LevelFilterNarrows(ls[1..], query, level);
      var a, b := Filter(ls[1..], f), Filter(ls[1..], g);
      if Matches(ls[0], f) {
        assert Matches(ls[0], g);
        assert ([ls[0]] + a)[1..] == a && ([ls[0]] + b)[1..] == b;
      } else if Matches(ls[0], g) {
        SubsequenceOfTail(a, b, ls[0]);
      }
    }
  }

  lemma SubsequenceOfTail<T>(a: seq<T>, b: seq<T>, x: T)
    requires IsSubsequence(a, b)
    ensures IsSubsequence(a, [x] + b)
  {
  }

  // ---------------------------------------------------------------------
  // Controls
  // ---------------------------------------------------------------------

  /** `resetFilters`: clear the search and the level. */
  function ResetFilters(f: Filters): (r: Filters)
    ensures !ResetShown(r)
    ensures forall ls :: Filter(ls, r) == ls
  {
    forall ls ensures Filter(ls, Unfiltered) == ls {
      UnfilteredKeepsAll(ls, None);
    }
    Unfiltered
  }

  /** The level select: the "All Levels" option has value '' and maps to null. */
  function SelectLevel(f: Filters, value: string): (r: Filters)
    ensures r.query == f.query
    ensures r.level.None? <==> value == ""
    ensures r.level.Some? ==> r.level.value == value
  {
    f.(level := if value == "" then None else Some(value))
  }

  /** The Reset button renders when the query or the level is truthy. */
  predicate ResetShown(f: Filters)
    ensures !ResetShown(f) ==> forall l :: Matches(l, f)
  {
    f.query != "" || (f.level.Some? && f.level.value != "")
  }

  /** When the Reset button is hidden the grid already shows every lesson,
      so the button appears exactly when it could change the view's filters. */
  lemma HiddenResetShowsAll(ls: seq<Lesson>, f: Filters)
    requires !ResetShown(f)
    ensures Filter(ls, f) == ls
  {
    UnfilteredKeepsAll(ls, f.level);
  }

  /** Choosing "All Levels" after any level leaves only the query in force. */
  lemma SelectAllLevelsClearsLevel(f: Filters)
    ensures Visible(SelectLevel(f, "")) == Filter(Lessons, Filters(f.query, None))
    ensures ResetShown(SelectLevel(f, "")) <==> f.query != ""
  {
  }
}
