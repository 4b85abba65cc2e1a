/** The static course catalog and its lookup by id (src/lib/courses.ts). */
module Courses {

  datatype Option<T> = None | Some(value: T)

  datatype Level = Beginner | Intermediate | Advanced

  datatype Lesson = Lesson(id: string, title: string, duration: string, isLocked: bool)

  datatype Module = Module(id: string, title: string, duration: string, lessons: seq<Lesson>)

  datatype Preview = Preview(image: string, video: string)

  /** A catalog record. The floating-point `rating` carries no logic and is not modelled. */
  datatype Course = Course(
    id: string,
    title: string,
    description: string,
    icon: string,
    color: string,
    lessons: nat,
    level: Level,
    category: string,
    students: nat,
    features: Option<seq<string>>,
    preview: Option<Preview>,
    modules: Option<seq<Module>>)

  /** The modules of the one course that has them, in catalog order. */
  const JavascriptModules: seq<Module> := [
    Module("js-module-1", "Getting Started with JavaScript", "1h 30m", [
      Lesson("js-lesson-1", "Introduction to JavaScript", "10:23", false),
      Lesson("js-lesson-2", "Setting Up Your Development Environment", "15:45", false),
      Lesson("js-lesson-3", "Variables, Data Types, and Operators", "20:12", false),
      Lesson("js-lesson-4", "Control Flow: Conditionals and Loops", "18:36", true)]),
    Module("js-module-2", "Functions and Objects", "2h 15m", [
      Lesson("js-lesson-5", "Function Declarations vs. Expressions", "16:42", true),
      Lesson("js-lesson-6", "Arrow Functions and Lexical Scope", "14:55", true),
      Lesson("js-lesson-7", "Working with Objects", "22:18", true),
      Lesson("js-lesson-8", "Prototypes and Inheritance", "24:30", true)]),
    Module("js-module-3", "Asynchronous JavaScript", "2h 45m", [
      Lesson("js-lesson-9", "Callbacks and the Event Loop", "18:24", true),
      Lesson("js-lesson-10", "Promises and Error Handling", "22:15", true),
      Lesson("js-lesson-11", "Async/Await Syntax", "19:48", true),
      Lesson("js-lesson-12", "Fetching Data from APIs", "25:33", true)])
  ]

  /** The catalog, in the order of the source table. */
  const Catalog: seq<Course> := [
    Course("javascript", "JavaScript Fundamentals",
      "Master the core concepts of JavaScript and modern ES6+ features.",
      "&#xe80f;", "blue", 24, Beginner, "frontend", 12560,
      Some(["Modern ES6+ syntax", "Asynchronous JavaScript", "DOM manipulation",
            "Error handling", "JavaScript modules"]),
      Some(Preview("/javascript-preview.webp", "https://www.youtube.com/watch?v=hdI2bqOjy3c")),
      Some(JavascriptModules)),
    Course("html-css", "HTML & CSS Mastery",
      "Learn to create modern, responsive websites with HTML5 and CSS3.",
      "&#xe63b;", "orange", 18, Beginner, "frontend", 15840, None, None, None),
    Course("react", "React.js Development",
      "Build dynamic user interfaces with React.js and its ecosystem.",
      "&#xe7b9;", "blue", 32, Intermediate, "frontend", 9870, None, None, None),
    Course("nodejs", "Node.js Backend Development",
      "Create scalable backend services with Node.js, Express and MongoDB.",
      "&#xe718;", "green", 28, Intermediate, "backend", 7640, None, None, None),
    Course("postgresql", "PostgreSQL Database Design",
      "Master relational database design and management with PostgreSQL.",
      "&#xe76e;", "blue", 22, Intermediate, "database", 5280, None, None, None),
    Course("aws", "AWS Cloud Services",
      "Learn to deploy and scale applications using Amazon Web Services.",
      "&#xe7ae;", "orange", 26, Advanced, "cloud", 6940, None, None, None),
    Course("docker", "Docker & Containerization",
      "Containerize applications for consistent development and deployment.",
      "&#xe7b0;", "blue", 20, Intermediate, "devops", 8320, None, None, None),
    Course("kubernetes", "Kubernetes Orchestration",
      "Automate deployment, scaling, and management of containerized applications.",
      "&#xe7b2;", "blue", 24, Advanced, "devops", 4860, None, None, None),
    Course("mongodb", "MongoDB NoSQL Database",
      "Store and query document-based data with MongoDB and Mongoose.",
      "&#xe7b5;", "green", 18, Intermediate, "database", 6120, None, None, None),
    Course("graphql", "GraphQL API Development",
      "Build efficient APIs with GraphQL, Apollo Server and Client.",
      "&#xe7b7;", "pink", 22, Advanced, "backend", 3840, None, None, None)
  ]

  /** No two records of `cs` share an id. */
  ghost predicate DistinctIds(cs: seq<Course>)
  {
    forall i, j :: 0 <= i < j < |cs| ==> cs[i].id != cs[j].id
  }

  /** `Array.prototype.find` with the predicate `course.id === id`: the first
      record in order whose id matches, or None when there is none. */
  function FindCourse(cs: seq<Course>, id: string): (r: Option<Course>)
    ensures r.Some? ==> r.value.id == id && r.value in cs
    ensures r.None? <==> forall i :: 0 <= i < |cs| ==> cs[i].id != id
    ensures r.Some? ==> exists i :: 0 <= i < |cs| && cs[i] == r.value &&
                                  forall j :: 0 <= j < i ==> cs[j].id != id
  {
    if |cs| == 0 then None
    else if cs[0].id == id then Some(cs[0])
    else
      var r := FindCourse(cs[1..], id);
      assert r.Some? ==> exists i :: 0 <= i < |cs| && cs[i] == r.value &&
                                    forall j :: 0 <= j < i ==> cs[j].id != id by {
        if r.Some? {
          var i :| 0 <= i < |cs[1..]| && cs[1..][i] == r.value &&
                   forall j :: 0 <= j < i ==> cs[1..][j].id != id;
          assert cs[i + 1] == r.value;
          forall j | 0 <= j < i + 1 ensures cs[j].id != id {
            if j > 0 { assert cs[j] == cs[1..][j - 1]; }
          }
        }
      }
      assert r.None? ==> forall i :: 0 <= i < |cs| ==> cs[i].id != id by {
        if r.None? {
          forall i | 0 <= i < |cs| ensures cs[i].id != id {
            if i > 0 { assert cs[i] == cs[1..][i - 1]; }
          }
        }
      }
      r
  }

  /** `getCourseById`: the catalog lookup used by the course and game pages. */
  function GetCourseById(id: string): (r: Option<Course>)
    ensures r.Some? ==> r.value.id == id && r.value in Catalog
    ensures r.None? <==> forall i :: 0 <= i < |Catalog| ==> Catalog[i].id != id
  {
    FindCourse(Catalog, id)
  }

  /** With distinct ids, looking up the id of any record yields that record. */
  lemma FindDistinct(cs: seq<Course>, i: nat)
    requires DistinctIds(cs)
    requires i < |cs|
    ensures FindCourse(cs, cs[i].id) == Some(cs[i])
  {
    var r := FindCourse(cs, cs[i].id);
    var k :| 0 <= k < |cs| && cs[k] == r.value &&
             forall j :: 0 <= j < k ==> cs[j].id != cs[i].id;
    if k < i {
      assert cs[k].id == cs[i].id;
    } else if i < k {
      assert false;
    }
  }

  /** The ten catalog ids are pairwise distinct, so the lookup is unambiguous. */
  lemma CatalogIdsDistinct()
    ensures |Catalog| == 10
    ensures DistinctIds(Catalog)
  {
    var ids := seq(|Catalog|, i requires 0 <= i < |Catalog| => Catalog[i].id);
    assert ids == ["javascript", "html-css", "react", "nodejs", "postgresql",
                   "aws", "docker", "kubernetes", "mongodb", "graphql"];
    forall i, j | 0 <= i < j < |Catalog| ensures Catalog[i].id != Catalog[j].id {
      assert ids[i] == Catalog[i].id && ids[j] == Catalog[j].id;
    }
  }

  /** Every catalog id is found, and the lookup returns that very record. */
  lemma GetCourseByIdFindsEveryRecord(i: nat)
    requires i < |Catalog|
    ensures GetCourseById(Catalog[i].id) == Some(Catalog[i])
  {
    CatalogIdsDistinct();
    FindDistinct(Catalog, i);
  }

  /** Any id that is not one of the ten catalog ids is not found. */
  lemma GetCourseByIdUnknown(id: string)
    requires id !in {"javascript", "html-css", "react", "nodejs", "postgresql",
                     "aws", "docker", "kubernetes", "mongodb", "graphql"}
    ensures GetCourseById(id) == None
  {
  }
}
