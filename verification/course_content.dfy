/** The module accordion of the course page (src/components/CourseContent.tsx). */
module CourseContent {
  import opened Courses

  /** The ids of the given modules. */
  ghost function IdSet(ms: seq<Module>): set<string>
  {
    set i | 0 <= i < |ms| :: ms[i].id
  }

  /** No two modules share an id. */
  ghost predicate DistinctModuleIds(ms: seq<Module>)
  {
    forall i, j :: 0 <= i < j < |ms| ==> ms[i].id != ms[j].id
  }

  /** `expandedModules[id]` read as a truth value: a missing key is `undefined`, which is falsy. */
  function IsExpanded(m: map<string, bool>, id: string): bool
  {
    id in m && m[id]
  }

  /** The initial `expandedModules` record: the `reduce` that writes
      `acc[module.id] = index === 0` for each module in order. When an id
      repeats, the later write wins, so a key ends up true exactly when its
      only occurrence is the first module. */
  method InitialExpanded(modules: seq<Module>) returns (m: map<string, bool>)
    ensures m.Keys == IdSet(modules)
    ensures forall k :: k in m ==>
              (m[k] <==> modules[0].id == k && forall j :: 0 < j < |modules| ==> modules[j].id != k)
    ensures DistinctModuleIds(modules) ==>
              forall i :: 0 <= i < |modules| ==> modules[i].id in m && m[modules[i].id] == (i == 0)
  {
    m := map[];
    var i := 0;
    while i < |modules|
      invariant 0 <= i <= |modules|
      invariant m.Keys == IdSet(modules[..i])
      invariant forall k :: k in m ==>
                  (m[k] <==> modules[0].id == k && forall j :: 0 < j < i ==> modules[j].id != k)
    {
      assert IdSet(modules[..i + 1]) == IdSet(modules[..i]) + {modules[i].id} by {
        assert forall j :: 0 <= j < i ==> modules[..i + 1][j] == modules[..i][j];
      }
      m := m[modules[i].id := i == 0];
      i := i + 1;
    }
    assert modules[..i] == modules;
    if DistinctModuleIds(modules) {
      forall i | 0 <= i < |modules| ensures modules[i].id in m && m[modules[i].id] == (i == 0) {
        assert modules[i].id in IdSet(modules);
      }
    }
  }

  /** `toggleModule(id)`: a copy of the record with the flag for `id` negated. */
  function ToggleModule(m: map<string, bool>, id: string): (r: map<string, bool>)
    ensures id in r && IsExpanded(r, id) == !IsExpanded(m, id)
    ensures r.Keys == m.Keys + {id}
    ensures forall k :: k in m && k != id ==> r[k] == m[k]
  {
    m[id := !IsExpanded(m, id)]
  }

  /** Toggling the same module twice restores every module's displayed state;
      the record itself comes back unchanged whenever it already held the key. */
  lemma ToggleTwice(m: map<string, bool>, id: string)
    ensures forall k :: IsExpanded(ToggleModule(ToggleModule(m, id), id), k) == IsExpanded(m, k)
    ensures id in m ==> ToggleModule(ToggleModule(m, id), id) == m
  {
    var r := ToggleModule(ToggleModule(m, id), id);
    if id in m {
      assert r.Keys == m.Keys;
      assert forall k :: k in m ==> r[k] == m[k];
    }
  }

  /** Applying `toggleModule` for each clicked id in turn. */
  function ToggleAll(m: map<string, bool>, clicks: seq<string>): map<string, bool>
    decreases |clicks|
  {
    if |clicks| == 0 then m else ToggleAll(ToggleModule(m, clicks[0]), clicks[1..])
  }

  /** Number of times `id` occurs among the clicks. */
  function Occurrences(clicks: seq<string>, id: string): nat
  {
    if |clicks| == 0 then 0
    else (if clicks[0] == id then 1 else 0) + Occurrences(clicks[1..], id)
  }

  /** After any sequence of clicks a module is expanded exactly when it started
      expanded and was clicked an even number of times, or started collapsed and
      was clicked an odd number of times: clicks on other modules never affect it. */
  lemma {:induction false} ToggleParity(m: map<string, bool>, clicks: seq<string>, id: string)
    ensures IsExpanded(ToggleAll(m, clicks), id) ==
              (IsExpanded(m, id) != (Occurrences(clicks, id) % 2 == 1))
    decreases |clicks|
  {
    if |clicks| > 0 {
      ToggleParity(ToggleModule(m, clicks[0]), clicks[1..], id);
    }
  }

  /** The lesson total in the header: the `reduce` adding `module.lessons.length`
      from the first module to the last. */
  function TotalLessons(ms: seq<Module>): (r: nat)
    ensures forall i :: 0 <= i < |ms| ==> |ms[i].lessons| <= r
  {
    if |ms| == 0 then 0 else TotalLessons(ms[..|ms| - 1]) + |ms[|ms| - 1].lessons|
  }

  /** The lesson rows the accordion renders, module by module, in order. */
  function AllLessons(ms: seq<Module>): seq<Lesson>
  {
    if |ms| == 0 then [] else ms[0].lessons + AllLessons(ms[1..])
  }

  /** Helper: the rendered rows of a list end with those of its last module. */
  lemma {:induction false} AllLessonsSnoc(ms: seq<Module>)
    requires |ms| > 0
    ensures AllLessons(ms) == AllLessons(ms[..|ms| - 1]) + ms[|ms| - 1].lessons
  {
    if |ms| > 1 {
      AllLessonsSnoc(ms[1..]);
      assert ms[1..][..|ms[1..]| - 1] == ms[..|ms| - 1][1..];
    } else {
      assert ms[..0] == [];
    }
  }

  /** The header's lesson total equals the number of lesson rows the accordion renders. */
  lemma {:induction false} TotalLessonsCountsRows(ms: seq<Module>)
    ensures TotalLessons(ms) == |AllLessons(ms)|
  {
    if |ms| > 0 {
      TotalLessonsCountsRows(ms[..|ms| - 1]);
      AllLessonsSnoc(ms);
    }
  }

  /** The lesson total of a list split in two is the sum of the parts' totals. */
  lemma TotalLessonsAppend(a: seq<Module>, b: seq<Module>)
    ensures TotalLessons(a + b) == TotalLessons(a) + TotalLessons(b)
  {
    TotalLessonsCountsRows(a + b);
    TotalLessonsCountsRows(a);
    TotalLessonsCountsRows(b);
    AllLessonsAppend(a, b);
  }

  /** Helper: rendering two lists of modules one after the other. */
  lemma {:induction false} AllLessonsAppend(a: seq<Module>, b: seq<Module>)
    ensures AllLessons(a + b) == AllLessons(a) + AllLessons(b)
  {
    if |a| > 0 {
      AllLessonsAppend(a[1..], b);
      assert (a + b)[1..] == a[1..] + b;
    } else {
      assert a + b == b;
    }
  }

  /** `modules.findIndex(m => m.id === id)`: the first index with that id, or -1. */
  function FindModuleIndex(ms: seq<Module>, id: string): (r: int)
    ensures -1 <= r < |ms|
    ensures r == -1 <==> forall i :: 0 <= i < |ms| ==> ms[i].id != id
    ensures r >= 0 ==> ms[r].id == id && forall j :: 0 <= j < r ==> ms[j].id != id
  {
    if |ms| == 0 then -1
    else if ms[0].id == id then 0
    else
      var r := FindModuleIndex(ms[1..], id);
      assert forall i :: 0 < i < |ms| ==> ms[i] == ms[1..][i - 1];
      if r == -1 then -1 else r + 1
  }

  /** The number shown in a module's badge. */
  function ModuleNumber(ms: seq<Module>, id: string): (r: int)
    ensures 0 <= r <= |ms|
    ensures r == 0 <==> forall i :: 0 <= i < |ms| ==> ms[i].id != id
    ensures r > 0 ==> ms[r - 1].id == id
  {
    FindModuleIndex(ms, id) + 1
  }

  /** A module's badge is between 1 and its own position; a repeated id shows
      the number of its first occurrence. */
  lemma ModuleNumberBound(ms: seq<Module>, i: nat)
    requires i < |ms|
    ensures 1 <= ModuleNumber(ms, ms[i].id) <= i + 1
    ensures ms[ModuleNumber(ms, ms[i].id) - 1].id == ms[i].id
  {
    var r := FindModuleIndex(ms, ms[i].id);
    if r == -1 || r > i {
      assert false;
    }
  }

  /** With distinct ids the badges read 1, 2, ..., n in order. */
  lemma ModuleNumbersSequential(ms: seq<Module>, i: nat)
    requires DistinctModuleIds(ms)
    requires i < |ms|
    ensures ModuleNumber(ms, ms[i].id) == i + 1
  {
    ModuleNumberBound(ms, i);
    var r := FindModuleIndex(ms, ms[i].id);
    if r < i {
      assert false;
    }
  }

  /** The one course with modules: three distinct modules, numbered 1 to 3,
      holding 12 lessons, while its record's `lessons` field (shown on the course
      page header) says 24. */
  lemma JavascriptContent()
    ensures Catalog[0].modules == Some(JavascriptModules)
    ensures DistinctModuleIds(JavascriptModules)
    ensures forall i :: 0 <= i < |JavascriptModules| ==>
              ModuleNumber(JavascriptModules, JavascriptModules[i].id) == i + 1
    ensures TotalLessons(JavascriptModules) == 12
    ensures Catalog[0].lessons == 24
  {
    JavascriptNumbering();
    JavascriptTotal();
  }

  /** Helper: the three module ids differ, so the badges read 1 to 3. */
  lemma JavascriptNumbering()
    ensures DistinctModuleIds(JavascriptModules)
    ensures forall i :: 0 <= i < |JavascriptModules| ==>
              ModuleNumber(JavascriptModules, JavascriptModules[i].id) == i + 1
  {
    var ms := JavascriptModules;
    assert |ms| == 3;
    assert ms[0].id == "js-module-1" && ms[1].id == "js-module-2" && ms[2].id == "js-module-3";
    ModuleNumbersSequential(ms, 0);
    ModuleNumbersSequential(ms, 1);
    ModuleNumbersSequential(ms, 2);
  }

  /** Helper: the three modules hold four lessons each. */
  lemma JavascriptTotal()
    ensures TotalLessons(JavascriptModules) == 12
  {
    var ms := JavascriptModules;
    assert |ms[0].lessons| == 4 && |ms[1].lessons| == 4 && |ms[2].lessons| == 4;
    assert ms[..0] == [] && ms[..1] == [ms[0]];
    assert TotalLessons(ms[..1]) == 4;
    assert ms[..2][..1] == ms[..1];
    assert TotalLessons(ms[..2]) == 8;
    assert ms[..3] == ms && ms[..3][..2] == ms[..2];
  }
}
