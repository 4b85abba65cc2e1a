# Learniverse course browser — a Dafny model of its logic

Learniverse is a front-end for an online coding school. It has a course catalog with
category tabs, a course page with a module accordion, and a "practice game" page that
steps through ten levels of a 3D scene. This project models the parts of it that
compute something, and proves what they promise:

- `Courses` (`courses.dfy`): the ten-record catalog and `getCourseById`. The lookup is
  `Array.prototype.find`, so it returns the first record with the id, or nothing.
  The ten ids are distinct, so every id finds its own record. Any other string finds
  nothing. As a function, the lookup cannot change the catalog.
- `FeaturedCourses` (`featured_courses.dfy`): the six category tabs and the
  `filteredCourses` expression. Under `'all'` the grid is the catalog unchanged.
  Under any other category the result is sound, complete and order-preserving, and
  its length is the number of matching courses. Each catalog category is one of the
  five non-`'all'` tabs, and those five tab grids together show every course exactly
  once.
- `CourseContent` (`course_content.dfy`): the module accordion.
  - The initial expansion record is built by a loop. When an id repeats, the later
    write wins.
  - `toggleModule` treats a missing key as collapsed.
  - After any sequence of clicks, a module's state depends only on how many times
    that module was clicked.
  - The header's lesson total is the number of lesson rows the accordion renders.
  - A module's badge number is one plus the index of the first module with its id.
  - One data fact is proved: the JavaScript course's modules hold 12 lessons, while
    its record's `lessons` field says 24. The course page header (`src/pages/Course.tsx:133`)
    shows 24 and the accordion header shows 12.
- `CourseGame` (`course_game.dfy`): the page's `currentLevel`/`gameStarted` state.
  - It is a class whose three handler methods are each tied to a step function.
  - Any run of handlers keeps the level in 1..10.
  - `n` clicks saturate at level 10.
  - These run lemmas describe the handlers themselves (`src/pages/CourseGame.tsx:175-197`
    and the Restart button at line 275). On the page as written, Start leads into
    `addLevelObjects`, whose clearing loop never ends (see "Findings"). The page can
    only reach these runs with the corrected clearing loop.
  - The level→shape/colour/wireframe choice is a pure function. All ten levels look
    different.
- `GameScene` (`game_scene.dfy`): the scene rebuild in `addLevelObjects`, reduced to
  the list of the scene's children. See "Findings".

The page as written has no code editor. It runs no learner-written script, checks no
per-level completion and shows no hint. Clicking the canvas advances the level
unconditionally (`src/pages/CourseGame.tsx:269`).

## Model

| member | source | states |
|---|---|---|
| `Courses.FindCourse` | src/lib/courses.ts:231-233 | A found record has the requested id and is in the list. Nothing is found exactly when no record has that id. A found record is the first one with that id (`find` semantics). |
| `Courses.GetCourseById` | src/lib/courses.ts:231-233 | `getCourseById` over the catalog. A found record has the requested id and is a catalog record. Nothing is found exactly when no catalog record has the id. Its per-id behaviour is stated by `GetCourseByIdFindsEveryRecord` and `GetCourseByIdUnknown`. |
| `Courses.FindDistinct` | src/lib/courses.ts:232 | When ids are distinct, looking up any record's id returns that very record. |
| `Courses.CatalogIdsDistinct` | src/lib/courses.ts:2-229 | The catalog has ten records with pairwise distinct ids. |
| `Courses.GetCourseByIdFindsEveryRecord` | src/lib/courses.ts:231-233 | `getCourseById` of each catalog id returns that catalog record. |
| `Courses.GetCourseByIdUnknown` | src/lib/courses.ts:231-233 | Any id other than the ten catalog ids yields not-found. |
| `FeaturedCourses.FilterByCategory` | src/components/FeaturedCourses.tsx:22 | The `filter` call. It keeps only input courses and is never longer than its input. The category, completeness, count and order properties are stated by `FilterSound`, `FilterComplete`, `FilterLength` and `FilterIsSubsequence`. |
| `FeaturedCourses.Visible` | src/components/FeaturedCourses.tsx:20-22 | `filteredCourses` for a course list. Under `'all'` it is the list unchanged. Otherwise it keeps only input courses and is never longer. The full contract is `VisibleSpec`. |
| `FeaturedCourses.FilteredCourses` | src/components/FeaturedCourses.tsx:20-22 | The grid over the catalog shows only catalog courses, at most ten. Its per-tab contents are stated by `EveryTabShowsSomething` and `CategoryTabsCoverCatalog`. |
| `FeaturedCourses.FilterSound` | src/components/FeaturedCourses.tsx:22 | Every course the filter keeps has the active category. |
| `FeaturedCourses.FilterComplete` | src/components/FeaturedCourses.tsx:22 | Every input course with the active category is kept. |
| `FeaturedCourses.FilterLength` | src/components/FeaturedCourses.tsx:22 | The filtered length equals the number of matching courses, which is at most the input length. |
| `FeaturedCourses.FilterIsSubsequence` | src/components/FeaturedCourses.tsx:20-22 | The filtered list is a subsequence of the input, so relative order is kept. |
| `FeaturedCourses.SubsequenceLength` | src/components/FeaturedCourses.tsx:20-22 | A subsequence is never longer than its source. |
| `FeaturedCourses.FilterNoMatch` | src/components/FeaturedCourses.tsx:22 | A category no course has yields an empty grid. |
| `FeaturedCourses.VisibleSpec` | src/components/FeaturedCourses.tsx:20-22 | Under `'all'` the grid is the input unchanged. Otherwise it is sound, complete, order-preserving, and counts exactly the matching courses. |
| `FeaturedCourses.CatalogCategoriesAreTabs` | src/components/FeaturedCourses.tsx:8-15 | Every catalog category is the id of one of the five non-`'all'` tabs. |
| `FeaturedCourses.ExactlyOneTabHighlighted` | src/components/FeaturedCourses.tsx:38-48 | The initial value `'all'` is the first tab's id. After a click on any tab, exactly that tab matches `activeCategory`. |
| `FeaturedCourses.EveryTabShowsSomething` | src/components/FeaturedCourses.tsx:20-22 | Over the catalog, every tab's grid is non-empty. |
| `FeaturedCourses.TabsPartition` | src/components/FeaturedCourses.tsx:22 | Suppose the tab ids are distinct and every course's category is one of them. Then the sizes of the per-tab grids add up to the number of courses. |
| `FeaturedCourses.CategoryTabsCoverCatalog` | src/components/FeaturedCourses.tsx:8-22 | The sizes of the five category tabs' grids add up to ten. Each catalog course is in exactly one of those five grids. |
| `FeaturedCourses.InOneCategoryGrid` | src/components/FeaturedCourses.tsx:8-22 | A course whose category is a category tab's id is in that tab's grid and in no other category tab's grid. |
| `CourseContent.InitialExpanded` | src/components/CourseContent.tsx:24-29 | The keys are exactly the module ids. A key is true exactly when its only occurrence is the first module. With distinct ids, the first module is expanded and all others are collapsed. |
| `CourseContent.ToggleModule` | src/components/CourseContent.tsx:31-36 | The toggled module's displayed state is negated, with a missing key counting as collapsed. The key is added. Every other key keeps its value. |
| `CourseContent.ToggleTwice` | src/components/CourseContent.tsx:31-36 | Toggling twice restores every module's displayed state. If the key was present, the record itself is restored. |
| `CourseContent.ToggleParity` | src/components/CourseContent.tsx:31-36 | After any click sequence, a module's state is its initial state flipped once per click on that module. Clicks on other modules have no effect on it. |
| `CourseContent.TotalLessons` | src/components/CourseContent.tsx:46 | The header's `reduce` total is at least each module's lesson count. Its meaning is stated by `TotalLessonsCountsRows` and `TotalLessonsAppend`. |
| `CourseContent.TotalLessonsCountsRows` | src/components/CourseContent.tsx:46 | The header's reduce total equals the number of lesson rows rendered across all modules. |
| `CourseContent.TotalLessonsAppend` | src/components/CourseContent.tsx:46 | The lesson total is additive over concatenated module lists. |
| `CourseContent.FindModuleIndex` | src/components/CourseContent.tsx:62 | `findIndex` returns -1 exactly when no module has the id. Otherwise it returns the first index with that id. |
| `CourseContent.ModuleNumber` | src/components/CourseContent.tsx:62 | The badge is between 0 and the number of modules. It is 0 exactly when no module has the id, and otherwise it is the 1-based position of a module with that id. Per-module values are stated by `ModuleNumberBound` and `ModuleNumbersSequential`. |
| `CourseContent.ModuleNumberBound` | src/components/CourseContent.tsx:62 | The i-th module's badge is between 1 and i+1 and names a module with the same id. |
| `CourseContent.ModuleNumbersSequential` | src/components/CourseContent.tsx:62 | With distinct ids the i-th module's badge is i+1. |
| `CourseContent.JavascriptContent` | src/lib/courses.ts:25-119 | The JavaScript course's three modules have distinct ids, are numbered 1 to 3 and hold 12 lessons. Its `lessons` field says 24. |
| `CourseGame.Step` | src/pages/CourseGame.tsx:175-197 | One handler (Start, Next, or the Restart button at line 275). A step keeps 1 ≤ level ≤ 10, and afterwards the game is started exactly when it was before or the event was Start. The per-handler effect is `StepSpec`. |
| `CourseGame.StepSpec` | src/pages/CourseGame.tsx:175-197 | Start sets `gameStarted` and keeps the level. Next adds one below level 10 and changes nothing at 10. Restart sets level 1 and keeps `gameStarted`. Each step keeps 1 ≤ level ≤ 10. |
| `CourseGame.RunKeepsLevelInRange` | src/pages/CourseGame.tsx:184-185 | Every sequence of start, next and restart preserves 1 ≤ level ≤ 10. |
| `CourseGame.OfferedRunInvariant` | src/pages/CourseGame.tsx:250-280 | The page offers Start only before the game starts, and the canvas and Restart only after. Along such runs the level stays in range, stays 1 until the game is started, and a started game stays started. |
| `CourseGame.ClicksSaturate` | src/pages/CourseGame.tsx:183-197 | n canvas clicks raise the level by n, capped at 10, and leave `gameStarted` unchanged. |
| `CourseGame.NineClicksFinish` | src/pages/CourseGame.tsx:183-197 | From the initial state, start plus nine clicks reaches level 10. Any further clicks keep it there. |
| `CourseGame.GameSession.constructor` | src/pages/CourseGame.tsx:15-16 | Initially `currentLevel` is 1 and `gameStarted` is false. |
| `CourseGame.GameSession.HandleStartGame` | src/pages/CourseGame.tsx:175-181 | Sets `gameStarted` and leaves the level unchanged. |
| `CourseGame.GameSession.HandleNextLevel` | src/pages/CourseGame.tsx:183-197 | Below level 10 the level goes up by exactly one. At 10 nothing changes. `gameStarted` is kept. |
| `CourseGame.GameSession.HandleRestart` | src/pages/CourseGame.tsx:273-279 | The level becomes 1 from any level, and `gameStarted` is kept. |
| `CourseGame.LevelAppearance` | src/pages/CourseGame.tsx:143-172 | Levels up to 3 get a box, 4 to 6 a torus, and higher levels a dodecahedron. Wireframe is on exactly at level 10. The colour is a 24-bit RGB value. |
| `CourseGame.LevelColours` | src/pages/CourseGame.tsx:148-167 | The colours of levels 1 to 10 follow the table 0x00ff00, 0x0000ff, 0xff0000, 0xff00ff, 0xffff00, 0x00ffff, 0x990000, 0x009900, 0x000099, 0x000099. |
| `CourseGame.LevelsDistinguishable` | src/pages/CourseGame.tsx:143-172 | Any two distinct levels in 1..10 look different. Levels 9 and 10 differ only in wireframe. |
| `CourseGame.ShapeMonotone` | src/pages/CourseGame.tsx:144-172 | The shape tier (box, torus, dodecahedron) never goes down as the level rises. |
| `GameScene.ClearStep` | src/pages/CourseGame.tsx:125-133 | One pass of the loop body as written. It keeps the number of lights and never adds children. Its consequences are `ClearLoopNeverExits` and `ClearStepsPrefix`. |
| `GameScene.ClearLoopNeverExits` | src/pages/CourseGame.tsx:125-133 | Take the loop as written, on a scene holding a light. After any number of passes the scene keeps all its lights and is non-empty, so the guard stays true. |
| `GameScene.PageSceneNeverCleared` | src/pages/CourseGame.tsx:62-70 | The scene passed in at line 70 already holds two lights, so the loop as written never ends on it. |
| `GameScene.ClearStepsPrefix` | src/pages/CourseGame.tsx:125-133 | After k ≤ n passes of the unchanged body, the children are the k unvisited ones followed by the clones of the visited lights. |
| `GameScene.ClearOncePerChildKeepsLights` | src/pages/CourseGame.tsx:125-133 | One pass per original child leaves exactly the lights, in order. |
| `GameScene.Scene.ClearKeepingLights` | src/pages/CourseGame.tsx:125-133 | The bounded clearing loop ends with the scene's children equal to its original lights, in order. |
| `GameScene.Scene.AddLevelObjects` | src/pages/CourseGame.tsx:123-173 | The scene ends with its former lights, then an ambient light, a directional light, and the level's mesh. |

## Findings

| source | as written | input that shows it | evidently intended | confidence | as-written member | corrected member |
|---|---|---|---|---|---|---|
| src/pages/CourseGame.tsx:125-133 | when the first child of `scene.children` is a light, the loop appends a clone of it at the back and then removes the original, so no light ever leaves the scene and `children.length > 0` stays true | the scene built at lines 62-67, holding an ambient and a directional light, passed to `addLevelObjects` at line 70 | visit each child present at the start once, keep the lights, drop the rest, and stop. The comment at line 135 ("Add ambient and directional light back") also allows another reading: remove every child, so the scene ends with just the two lights re-added below rather than four. Both readings terminate; the model follows the first | not executed | `GameScene.PageSceneNeverCleared` | `GameScene.Scene.ClearKeepingLights` |

## Left out

- Rendering library work: scene, camera and renderer construction, DOM attachment, resize handling and disposal (`src/pages/CourseGame.tsx:37-120`). These are calls into a library whose source is not part of this model.
- The animation loop that adds 0.01 to the mesh rotation each frame. It is a per-frame browser callback doing floating-point arithmetic.
- `cubeRef`, the handle to the current mesh. Only the animation uses it.
- The simulated fetch latency (`setTimeout` in `src/pages/Course.tsx:20-24` and `src/pages/CourseGame.tsx:28-32`) and the loading, not-found and loaded views. These are timers and presentation. The lookup they call is modelled as `Courses.GetCourseById`.
- Toast notifications and their text. At level 10 the next-level handler's only effect is a message, so the model treats it as changing no state.
- All JSX rendering, the navbar scroll listener and menu toggle, the footer, hero, course card and index page. These are presentation only.
- Course `rating` values. They are floating point and no logic reads them.
- `CourseGame.LevelAppearance`: the level is an integer. The source's `number` could in principle be fractional, but only whole levels ever reach it.
- `GameScene.Scene.AddLevelObjects`: models the corrected, terminating clearing loop. As written, the loop never ends (see "Findings"). A light's clone is modelled as the same light value, and the mesh's geometry dimensions are not modelled.
