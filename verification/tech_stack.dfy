/**
  The technology card of src/components/TechStack.tsx: the languages of the
  repositories, and the frameworks and databases their package manifests declare.
  Each list is `Array.from` of a `Set` filled while walking the repositories, so it
  holds every name once, in the order the walk first added it.
 */
module TechStack {
  import opened Wrappers
  import opened Seqs
  import opened GitHubTypes

  /** `getTechStack`: the truthy languages, each once. */
  function GetTechStack(repos: seq<Repo>): seq<string> {
    Dedup(Languages(repos))
  }

  /** The truthy language of every repository that has one, in order. */
  function Languages(repos: seq<Repo>): (ls: seq<string>)
    ensures forall x :: x in ls <==> exists i :: 0 <= i < |repos| && LanguageOf(repos[i]) == Some(x)
    decreases |repos|
  {
    if |repos| == 0 then []
    else
      var rest := Languages(repos[1..]);
      assert forall i :: 0 <= i < |repos[1..]| ==> repos[1..][i] == repos[i + 1];
      match LanguageOf(repos[0])
      case Some(l) => [l] + rest
      case None => rest
  }

  /**
    The stack lists each language some repository has, and nothing else, once each,
    in order of first appearance.
   */
  lemma TechStackLanguages(repos: seq<Repo>)
    ensures var st := GetTechStack(repos);
      && Distinct(st)
      && (forall x :: x in st <==> exists i :: 0 <= i < |repos| && LanguageOf(repos[i]) == Some(x))
      && (forall i, j, b :: 0 <= i < j < |st| && 0 <= b < |Languages(repos)| && Languages(repos)[b] == st[j] ==>
            SeenBefore(Languages(repos), b, st[i]))
  {
    DedupFirstSeen(Languages(repos));
    var st := GetTechStack(repos);
    forall x ensures x in st <==> x in Languages(repos) {
      if x in Languages(repos) {
        var k :| 0 <= k < |Languages(repos)| && Languages(repos)[k] == x;
      }
    }
  }

  // ---------------------------------------------------------------- manifests

  /** A dependency name and the label shown for it. */
  datatype Detector = Detector(dependency: string, name: string)

  const FrameworkDetectors := [
    Detector("react", "React"), Detector("vue", "Vue"), Detector("angular", "Angular"),
    Detector("next", "Next.js"), Detector("express", "Express")]

  const DatabaseDetectors := [
    Detector("mongodb", "MongoDB"), Detector("pg", "PostgreSQL"), Detector("mysql", "MySQL"),
    Detector("redis", "Redis")]

  /**
    `repo.package_json.dependencies[dep]` is truthy: the manifest has dependencies,
    lists `dep`, and its version string is not empty.
   */
  predicate Declares(r: Repo, dep: string) {
    r.dependencies.Some? && dep in r.dependencies.value && r.dependencies.value[dep] != ""
  }

  /** The labels one repository adds, in the order of the table. */
  function Detected(r: Repo, table: seq<Detector>): (ns: seq<string>)
    ensures forall x :: x in ns <==> exists k :: 0 <= k < |table| && table[k].name == x && Declares(r, table[k].dependency)
    decreases |table|
  {
    if |table| == 0 then []
    else
      var rest := Detected(r, table[1..]);
      assert forall k :: 0 <= k < |table[1..]| ==> table[1..][k] == table[k + 1];
      (if Declares(r, table[0].dependency) then [table[0].name] else []) + rest
  }

  /** The labels of all repositories, in walk order, with repeats. */
  function DetectedAll(repos: seq<Repo>, table: seq<Detector>): (ns: seq<string>)
    ensures forall x :: x in ns <==> exists i :: 0 <= i < |repos| && x in Detected(repos[i], table)
    decreases |repos|
  {
    if |repos| == 0 then []
    else
      var rest := DetectedAll(repos[1..], table);
      assert forall i :: 0 <= i < |repos[1..]| ==> repos[1..][i] == repos[i + 1];
      Detected(repos[0], table) + rest
  }

  function Collected(repos: seq<Repo>, table: seq<Detector>): seq<string> {
    Dedup(DetectedAll(repos, table))
  }

  /** `getFrameworks`. */
  function GetFrameworks(repos: seq<Repo>): seq<string> {
    Collected(repos, FrameworkDetectors)
  }

  /** `getDatabases`. */
  function GetDatabases(repos: seq<Repo>): seq<string> {
    Collected(repos, DatabaseDetectors)
  }

  /**
    A label is listed exactly when some repository declares the matching dependency;
    each label is listed once.
   */
  lemma CollectedExactly(repos: seq<Repo>, table: seq<Detector>)
    ensures var c := Collected(repos, table);
      && Distinct(c)
      && forall x :: x in c <==>
           exists i, k :: 0 <= i < |repos| && 0 <= k < |table| && table[k].name == x && Declares(repos[i], table[k].dependency)
  {
    var c := Collected(repos, table);
    var all := DetectedAll(repos, table);
    forall x ensures x in c <==> x in all {
      if x in all {
        var k :| 0 <= k < |all| && all[k] == x;
      }
    }
  }

  predicate DistinctNames(table: seq<Detector>) {
    forall k, l :: 0 <= k < l < |table| ==> table[k].name != table[l].name
  }

  /**
    With distinct labels, each label of the table is listed exactly when some
    repository declares its dependency, and no other label is listed.
   */
  lemma TableLabels(repos: seq<Repo>, table: seq<Detector>)
    requires DistinctNames(table)
    ensures var c := Collected(repos, table);
      && Distinct(c)
      && (forall x :: x in c ==> exists k :: 0 <= k < |table| && table[k].name == x)
      && (forall k :: 0 <= k < |table| ==>
            (table[k].name in c <==> exists i :: 0 <= i < |repos| && Declares(repos[i], table[k].dependency)))
  {
    CollectedExactly(repos, table);
  }

  function Labels(table: seq<Detector>): (ls: seq<string>)
    ensures |ls| == |table|
    ensures forall k :: 0 <= k < |table| ==> ls[k] == table[k].name
  {
    seq(|table|, k requires 0 <= k < |table| => table[k].name)
  }

  /**
    The frameworks are a duplicate-free selection of React, Vue, Angular, Next.js and
    Express; each appears exactly when some repository declares its package (react,
    vue, angular, next, express).
   */
  lemma FrameworksDetected(repos: seq<Repo>)
    ensures Labels(FrameworkDetectors) == ["React", "Vue", "Angular", "Next.js", "Express"]
    ensures var fs := GetFrameworks(repos);
      && Distinct(fs)
      && (forall x :: x in fs ==> x in Labels(FrameworkDetectors))
      && (forall k :: 0 <= k < |FrameworkDetectors| ==>
            (FrameworkDetectors[k].name in fs <==> exists i :: 0 <= i < |repos| && Declares(repos[i], FrameworkDetectors[k].dependency)))
  {
    FrameworksTable();
    TableLabels(repos, FrameworkDetectors);
  }

  lemma FrameworksTable()
    ensures Labels(FrameworkDetectors) == ["React", "Vue", "Angular", "Next.js", "Express"]
    ensures DistinctNames(FrameworkDetectors)
  {
    var ls := Labels(FrameworkDetectors);
    assert ls == ["React", "Vue", "Angular", "Next.js", "Express"];
    forall k, l | 0 <= k < l < |FrameworkDetectors| ensures FrameworkDetectors[k].name != FrameworkDetectors[l].name {
      assert FrameworkDetectors[k].name == ls[k] && FrameworkDetectors[l].name == ls[l];
    }
  }

  /**
    The databases are a duplicate-free selection of MongoDB, PostgreSQL, MySQL and
    Redis; each appears exactly when some repository declares its package (mongodb,
    pg, mysql, redis).
   */
  lemma DatabasesDetected(repos: seq<Repo>)
    ensures Labels(DatabaseDetectors) == ["MongoDB", "PostgreSQL", "MySQL", "Redis"]
    ensures var ds := GetDatabases(repos);
      && Distinct(ds)
      && (forall x :: x in ds ==> x in Labels(DatabaseDetectors))
      && (forall k :: 0 <= k < |DatabaseDetectors| ==>
            (DatabaseDetectors[k].name in ds <==> exists i :: 0 <= i < |repos| && Declares(repos[i], DatabaseDetectors[k].dependency)))
  {
    DatabasesTable();
    TableLabels(repos, DatabaseDetectors);
  }

  lemma DatabasesTable()
    ensures Labels(DatabaseDetectors) == ["MongoDB", "PostgreSQL", "MySQL", "Redis"]
    ensures DistinctNames(DatabaseDetectors)
  {
    var ls := Labels(DatabaseDetectors);
    assert ls == ["MongoDB", "PostgreSQL", "MySQL", "Redis"];
    forall k, l | 0 <= k < l < |DatabaseDetectors| ensures DatabaseDetectors[k].name != DatabaseDetectors[l].name {
      assert DatabaseDetectors[k].name == ls[k] && DatabaseDetectors[l].name == ls[l];
    }
  }

  /** Repositories without manifest dependencies add no framework and no database. */
  lemma {:induction false} NoManifestNoLabels(r: Repo, table: seq<Detector>)
    requires r.dependencies.None?
    ensures Detected(r, table) == []
    decreases |table|
  {
    if |table| > 0 {
      NoManifestNoLabels(r, table[1..]);
    }
  }
}
