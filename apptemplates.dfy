/**
 A model of the `apptemplates` template loader for Django.

 A template identifier may be scoped to an application: `admin:admin/base.html`
 searches only the `templates` directory of the installed application whose
 dotted module name ends in `admin`, and `-admin:admin/base.html` searches the
 usual directory list with that application's directory taken out.

 The model has three parts:
 - the string operations the loader relies on (finding the first `:`,
   splitting on it once, and the last `.`-separated segment of a module name);
 - `AppDirCache`, the process-wide memo `_cache` together with the installed
   applications it scans (`get_app_template_dir`);
 - `Loader`, whose `GetTemplateSources` rewrites the identifier and the
   directory list and stops at the pair it hands to Django's own
   directory-search loader.
 Each stateful operation is proved against a pure specification function
 (`AppTemplateDir`, `TemplateSources`), and the lemmas state what those
 functions promise.
 */
module AppTemplates {

  datatype Option<+T> = None | Some(value: T)

  /** A directory entry as handed to the search loader; include mode can yield `None`. */
  type Dir = Option<string>

  // ---------------------------------------------------------------------------
  // String operations
  // ---------------------------------------------------------------------------

  /** Position of the first occurrence of `c` in `s`, if `c` occurs at all. */
  function FirstIndex(s: string, c: char): (r: Option<nat>)
    ensures r.None? <==> c !in s
    ensures r.Some? ==> r.value < |s| && s[r.value] == c
    ensures r.Some? ==> forall j :: 0 <= j < r.value ==> s[j] != c
  {
    if |s| == 0 then None
    else if s[0] == c then Some(0)
    else match FirstIndex(s[1..], c)
      case None => None
      case Some(i) =>
        assert forall j :: 1 <= j < i + 1 ==> s[j] == s[1..][j - 1];
        Some(i + 1)
  }

  /**
   Python's `s.split(sep, 1)` on a string that contains `sep`: the text before
   the first `sep` and everything after it.  `None` when `sep` does not occur.
   */
  function SplitOnce(s: string, sep: char): (r: Option<(string, string)>)
    ensures r.None? <==> sep !in s
    ensures r.Some? ==> sep !in r.value.0 && r.value.0 + [sep] + r.value.1 == s
  {
    match FirstIndex(s, sep)
    case None => None
    case Some(i) =>
      assert s[..i] + [sep] + s[i + 1..] == s by {
        assert s == s[..i] + [s[i]] + s[i + 1..];
      }
      Some((s[..i], s[i + 1..]))
  }

  /** A split at a separator-free prefix is the one `SplitOnce` finds. */
  lemma SplitOnceUnique(s: string, sep: char, prefix: string, rest: string)
    requires sep !in prefix
    requires s == prefix + [sep] + rest
    ensures SplitOnce(s, sep) == Some((prefix, rest))
  {
    var i := FirstIndex(s, sep).value;
    assert s[|prefix|] == sep;
    assert forall j :: 0 <= j < |prefix| ==> prefix[j] == s[j];
    assert s[..i] == prefix;
    assert s[i + 1..] == rest;
  }

  /**
   `s.split('.')[-1]`: the longest suffix of `s` without a `.`; all of `s` when
   it has no `.`, otherwise what follows its last `.` (possibly empty).
   */
  function LastSegment(s: string): (r: string)
    ensures '.' !in r
  {
    if |s| == 0 then ""
    else if s[|s| - 1] == '.' then ""
    else LastSegment(s[..|s| - 1]) + [s[|s| - 1]]
  }

  /** The last segment is a suffix, and it is preceded by a `.` whenever it is not all of `s`. */
  lemma {:induction false} LastSegmentIsLongestDotFreeSuffix(s: string)
    ensures var r := LastSegment(s);
            |r| <= |s| && r == s[|s| - |r|..] && (|r| < |s| ==> s[|s| - |r| - 1] == '.')
  {
    if |s| > 0 && s[|s| - 1] != '.' {
      var init := s[..|s| - 1];
      LastSegmentIsLongestDotFreeSuffix(init);
      var r := LastSegment(s);
      assert r == LastSegment(init) + [s[|s| - 1]];
      assert |r| < |s| ==> s[|s| - |r| - 1] == init[|init| - |LastSegment(init)| - 1];
    }
  }

  /** A module name without dots is its own last segment. */
  lemma {:induction false} LastSegmentOfPlainName(name: string)
    requires '.' !in name
    ensures LastSegment(name) == name
  {
    if name != [] {
      var init := name[..|name| - 1];
      assert '.' !in init by {
        assert forall j :: 0 <= j < |init| ==> init[j] == name[j];
      }
      LastSegmentOfPlainName(init);
      assert init + [name[|name| - 1]] == name;
    }
  }

  /** The last segment of `package.name` is `name` (e.g. `admin` for `django.contrib.admin`). */
  lemma {:induction false} LastSegmentOfDotted(package: string, name: string)
    requires '.' !in name
    ensures LastSegment(package + "." + name) == name
  {
    var s := package + "." + name;
    if name == [] {
      assert s[|s| - 1] == '.';
    } else {
      var init := name[..|name| - 1];
      assert '.' !in init by {
        assert forall j :: 0 <= j < |init| ==> init[j] == name[j];
      }
      LastSegmentOfDotted(package, init);
      assert s[..|s| - 1] == package + "." + init;
      assert s[|s| - 1] == name[|name| - 1];
      assert init + [name[|name| - 1]] == name;
    }
  }

  // ---------------------------------------------------------------------------
  // get_app_template_dir
  // ---------------------------------------------------------------------------

  /** True when the installed application `app` answers to the short name `name`. */
  predicate Answers(app: string, name: string) {
    LastSegment(app) == name
  }

  /**
   What a scan of `apps` yields for the short name `name`: the template
   directory of the first application whose last segment is `name`, or `None`
   when no application matches.
   */
  function AppTemplateDir(apps: seq<string>, appDir: string -> string, name: string): (r: Dir)
    ensures r.None? <==> forall j :: 0 <= j < |apps| ==> !Answers(apps[j], name)
    decreases |apps|
  {
    if apps == [] then None
    else if Answers(apps[0], name) then Some(appDir(apps[0]))
    else
      var r := AppTemplateDir(apps[1..], appDir, name);
      assert forall j :: 1 <= j < |apps| ==> apps[j] == apps[1..][j - 1];
      r
  }

  /** The first matching application decides the result. */
  lemma {:induction false} FirstMatchWins(apps: seq<string>, appDir: string -> string, name: string, k: nat)
    requires k < |apps| && Answers(apps[k], name)
    requires forall j :: 0 <= j < k ==> !Answers(apps[j], name)
    ensures AppTemplateDir(apps, appDir, name) == Some(appDir(apps[k]))
  {
    if k > 0 {
      var tail := apps[1..];
      assert !Answers(apps[0], name);
      assert tail[k - 1] == apps[k];
      assert forall j :: 0 <= j < k - 1 ==> !Answers(tail[j], name) by {
        forall j | 0 <= j < k - 1 ensures !Answers(tail[j], name) {
          assert tail[j] == apps[j + 1];
        }
      }
      FirstMatchWins(tail, appDir, name, k - 1);
    }
  }

  /** Applications listed after a match are never consulted. */
  lemma {:induction false} LaterAppsIgnored(apps: seq<string>, later: seq<string>, appDir: string -> string, name: string)
    requires exists j :: 0 <= j < |apps| && Answers(apps[j], name)
    ensures AppTemplateDir(apps + later, appDir, name) == AppTemplateDir(apps, appDir, name)
  {
    if Answers(apps[0], name) {
    } else {
      assert (apps + later)[1..] == apps[1..] + later;
      var j :| 0 <= j < |apps| && Answers(apps[j], name);
      assert apps[1..][j - 1] == apps[j];
      LaterAppsIgnored(apps[1..], later, appDir, name);
    }
  }

  /** The scan on the installed applications of the example in the library's documentation. */
  lemma AdminExample(appDir: string -> string)
    ensures AppTemplateDir(["django.contrib.admin", "myproject.myapp"], appDir, "admin")
            == Some(appDir("django.contrib.admin"))
    ensures AppTemplateDir(["django.contrib.admin", "myproject.myapp"], appDir, "blog") == None
  {
    LastSegmentOfDotted("django.contrib", "admin");
    assert "django.contrib" + "." + "admin" == "django.contrib.admin";
    LastSegmentOfDotted("myproject", "myapp");
    assert "myproject" + "." + "myapp" == "myproject.myapp";
    FirstMatchWins(["django.contrib.admin", "myproject.myapp"], appDir, "admin", 0);
  }

  /** The scan over the installed applications of the library's documentation. */
  function DocumentedLookup(appDir: string -> string): string -> Dir {
    app => AppTemplateDir(["django.contrib.admin", "myproject.myapp"], appDir, app)
  }

  /** The documented `admin:admin/base.html` searches only the admin package's directory. */
  lemma AdminIncludeExample(appDir: string -> string, dirs: Option<seq<Dir>>, defaultDirs: seq<Dir>)
    ensures TemplateSources("admin:admin/base.html", dirs, defaultDirs, DocumentedLookup(appDir))
            == ("admin/base.html", [Some(appDir("django.contrib.admin"))])
  {
    AdminExample(appDir);
    assert "admin:admin/base.html" == "admin" + ":" + "admin/base.html";
    IncludeRewrite("admin", "admin/base.html", dirs, defaultDirs, DocumentedLookup(appDir));
  }

  /** `-admin:admin/base.html` takes the admin directory out of a search list that holds it once. */
  lemma AdminExcludeExample(appDir: string -> string, before: seq<Dir>, after: seq<Dir>)
    requires Some(appDir("django.contrib.admin")) !in before
    ensures TemplateSources("-admin:admin/base.html", Some(before + [Some(appDir("django.contrib.admin"))] + after),
                            [], DocumentedLookup(appDir))
            == ("admin/base.html", before + after)
  {
    var d := Some(appDir("django.contrib.admin"));
    var dirs := before + [d] + after;
    AdminExample(appDir);
    assert DocumentedLookup(appDir)("admin") == d;
    assert "-admin:admin/base.html" == "-" + "admin" + ":" + "admin/base.html";
    ExcludeRewrite("admin", "admin/base.html", Some(dirs), [], DocumentedLookup(appDir));
    assert dirs[..|before|] == before && dirs[|before| + 1..] == after;
    RemoveFirstAt(dirs, d, |before|);
  }

  /**
   The module-level `_cache` of template directories, keyed by application
   short name, together with the installed applications (`INSTALLED_APPS`)
   and `appDir`, which stands for importing a module and joining its
   directory with `templates`.
   */
  class AppDirCache {
    var cache: map<string, Dir>
    const installedApps: seq<string>
    const appDir: string -> string

    /** Every cached entry, `None` included, is what a fresh scan would give. */
    ghost predicate Valid()
      reads this
    {
      forall name :: name in cache ==> cache[name] == AppTemplateDir(installedApps, appDir, name)
    }

    /** The cache starts empty when the process starts. */
    constructor (installedApps: seq<string>, appDir: string -> string)
      ensures Valid()
      ensures cache == map[]
      ensures this.installedApps == installedApps && this.appDir == appDir
    {
      this.cache := map[];
      this.installedApps := installedApps;
      this.appDir := appDir;
    }

    /**
     `get_app_template_dir`: a cache hit returns the stored value without
     scanning; a miss scans the installed applications in order, stops at the
     first match, and stores the result, `None` included.
     */
    method GetAppTemplateDir(appName: string) returns (templateDir: Dir)
      modifies this`cache
      ensures appName in old(cache) ==> templateDir == old(cache)[appName] && cache == old(cache)
      ensures appName !in old(cache) ==> templateDir == AppTemplateDir(installedApps, appDir, appName)
      ensures cache == old(cache)[appName := templateDir]
      ensures old(Valid()) ==> Valid() && templateDir == AppTemplateDir(installedApps, appDir, appName)
    {
      if appName in cache {
        return cache[appName];
      }
      templateDir := None;
      var i := 0;
      while i < |installedApps|
        invariant 0 <= i <= |installedApps|
        invariant AppTemplateDir(installedApps[i..], appDir, appName)
                  == AppTemplateDir(installedApps, appDir, appName)
        invariant templateDir == None
      {
        var app := installedApps[i];
        if Answers(app, appName) {
          templateDir := Some(appDir(app));
          break;
        }
        assert installedApps[i..][1..] == installedApps[i + 1..];
        i := i + 1;
      }
      cache := cache[appName := templateDir];
    }
  }

  /** Two lookups of the same name agree, and the second is a cache hit that changes nothing. */
  method RepeatedLookup(c: AppDirCache, appName: string) returns (first: Dir, second: Dir)
    modifies c`cache
    ensures first == second
    ensures c.cache == old(c.cache)[appName := first]
  {
    first := c.GetAppTemplateDir(appName);
    ghost var between := c.cache;
    second := c.GetAppTemplateDir(appName);
    assert c.cache == between;
  }

  // ---------------------------------------------------------------------------
  // Loader.get_template_sources
  // ---------------------------------------------------------------------------

  /** `template_dirs` when it is truthy, the loader's default list otherwise. */
  function EffectiveDirs(templateDirs: Option<seq<Dir>>, defaultDirs: seq<Dir>): (r: seq<Dir>)
    ensures templateDirs.Some? && templateDirs.value != [] ==> r == templateDirs.value
    ensures templateDirs.None? || templateDirs.value == [] ==> r == defaultDirs
  {
    if templateDirs.None? || templateDirs.value == [] then defaultDirs else templateDirs.value
  }

  /**
   A copy of `xs` without its first occurrence of `x` (`list.remove`), or
   `xs` itself when `x` does not occur (the `ValueError` being ignored).
   */
  function RemoveFirst<T(==)>(xs: seq<T>, x: T): (r: seq<T>)
    ensures x in xs ==> |r| == |xs| - 1
    ensures x !in xs ==> r == xs
    ensures multiset(r) == multiset(xs) - multiset{x}
  {
    if xs == [] then []
    else
      assert xs == [xs[0]] + xs[1..];
      if xs[0] == x then xs[1..]
      else [xs[0]] + RemoveFirst(xs[1..], x)
  }

  /** Removal takes out exactly the element at the first position holding `x`; the rest keep their order. */
  lemma {:induction false} RemoveFirstAt<T>(xs: seq<T>, x: T, k: nat)
    requires k < |xs| && xs[k] == x && x !in xs[..k]
    ensures RemoveFirst(xs, x) == xs[..k] + xs[k + 1..]
  {
    if k > 0 {
      assert xs[0] == xs[..k][0];
      assert xs[1..][..k - 1] == xs[1..k];
      RemoveFirstAt(xs[1..], x, k - 1);
      assert xs[..k] == [xs[0]] + xs[1..][..k - 1];
      assert xs[1..][k..] == xs[k + 1..];
    }
  }

  /**
   The pair handed to the directory-search loader for `templateName`, the
   caller's `templateDirs` and the loader's `defaultDirs`, where `lookup`
   gives an application's template directory.
   */
  function TemplateSources(templateName: string, templateDirs: Option<seq<Dir>>, defaultDirs: seq<Dir>,
                           lookup: string -> Dir): (r: (string, seq<Dir>))
    ensures ':' !in templateName ==> r == (templateName, EffectiveDirs(templateDirs, defaultDirs))
    ensures ':' in templateName ==> |r.0| < |templateName|
  {
    var dirs := EffectiveDirs(templateDirs, defaultDirs);
    match SplitOnce(templateName, ':')
    case None => (templateName, dirs)
    case Some((appName, rest)) =>
      if |appName| > 0 && appName[0] == '-' then (rest, RemoveFirst(dirs, lookup(appName[1..])))
      else (rest, [lookup(appName)])
  }

  /** `-app:rest` searches the usual directories with `app`'s directory removed once. */
  lemma ExcludeRewrite(app: string, rest: string, templateDirs: Option<seq<Dir>>, defaultDirs: seq<Dir>,
                       lookup: string -> Dir)
    requires ':' !in app
    ensures TemplateSources("-" + app + ":" + rest, templateDirs, defaultDirs, lookup)
            == (rest, RemoveFirst(EffectiveDirs(templateDirs, defaultDirs), lookup(app)))
  {
    var prefix := "-" + app;
    assert ':' !in prefix by {
      assert forall i :: 1 <= i < |prefix| ==> prefix[i] == app[i - 1];
    }
    SplitOnceUnique("-" + app + ":" + rest, ':', prefix, rest);
    assert prefix[1..] == app;
  }

  /** `app:rest` with `app` not starting with `-` searches only `[lookup(app)]`, which is `[None]` for an unknown app. */
  lemma IncludeRewrite(app: string, rest: string, templateDirs: Option<seq<Dir>>, defaultDirs: seq<Dir>,
                       lookup: string -> Dir)
    requires ':' !in app
    requires app == [] || app[0] != '-'
    ensures TemplateSources(app + ":" + rest, templateDirs, defaultDirs, lookup) == (rest, [lookup(app)])
  {
    SplitOnceUnique(app + ":" + rest, ':', app, rest);
  }

  /**
   Every application-scoped identifier is covered by exactly one of
   `ExcludeRewrite` and `IncludeRewrite`: it splits as `-app:rest` when it
   starts with `-`, and as `app:rest` with `app` not starting with `-`
   otherwise.
   */
  lemma ScopedIdentifierCases(templateName: string) returns (app: string, rest: string, excluded: bool)
    requires ':' in templateName
    ensures ':' !in app
    ensures excluded <==> templateName[0] == '-'
    ensures excluded ==> templateName == "-" + app + ":" + rest
    ensures !excluded ==> templateName == app + ":" + rest && (app == [] || app[0] != '-')
  {
    var prefix := SplitOnce(templateName, ':').value.0;
    rest := SplitOnce(templateName, ':').value.1;
    excluded := |prefix| > 0 && prefix[0] == '-';
    if excluded {
      app := prefix[1..];
      assert prefix == "-" + app;
      assert templateName[0] == prefix[0];
      assert ':' !in app by {
        assert forall i :: 0 <= i < |app| ==> app[i] == prefix[i + 1];
      }
    } else {
      app := prefix;
      assert templateName[0] == if prefix == [] then ':' else prefix[0];
    }
  }

  /**
   Excluding an application whose directory is listed drops exactly its first
   occurrence: one entry fewer, everything else in the original order.
   */
  lemma ExcludeListedDir(app: string, rest: string, templateDirs: Option<seq<Dir>>, defaultDirs: seq<Dir>,
                         lookup: string -> Dir, k: nat)
    requires ':' !in app
    requires var dirs := EffectiveDirs(templateDirs, defaultDirs);
             k < |dirs| && dirs[k] == lookup(app) && lookup(app) !in dirs[..k]
    ensures var dirs := EffectiveDirs(templateDirs, defaultDirs);
            var r := TemplateSources("-" + app + ":" + rest, templateDirs, defaultDirs, lookup);
            r.1 == dirs[..k] + dirs[k + 1..] && |r.1| == |dirs| - 1
  {
    ExcludeRewrite(app, rest, templateDirs, defaultDirs, lookup);
    RemoveFirstAt(EffectiveDirs(templateDirs, defaultDirs), lookup(app), k);
  }

  /** Excluding an application whose directory is not listed (an unknown app included) changes nothing. */
  lemma ExcludeUnlistedDir(app: string, rest: string, templateDirs: Option<seq<Dir>>, defaultDirs: seq<Dir>,
                           lookup: string -> Dir)
    requires ':' !in app
    requires lookup(app) !in EffectiveDirs(templateDirs, defaultDirs)
    ensures TemplateSources("-" + app + ":" + rest, templateDirs, defaultDirs, lookup)
            == (rest, EffectiveDirs(templateDirs, defaultDirs))
  {
    ExcludeRewrite(app, rest, templateDirs, defaultDirs, lookup);
  }

  /**
   `apptemplates.Loader`: Django's application-directories loader whose
   `get_template_sources` first rewrites an application-scoped identifier.
   */
  class Loader {
    /** Django's `app_template_dirs`, the default search list. */
    const appTemplateDirs: seq<Dir>
    /** The process-wide cache shared by every loader. */
    const dirCache: AppDirCache

    constructor (appTemplateDirs: seq<Dir>, dirCache: AppDirCache)
      ensures this.appTemplateDirs == appTemplateDirs && this.dirCache == dirCache
    {
      this.appTemplateDirs := appTemplateDirs;
      this.dirCache := dirCache;
    }

    /**
     `get_template_sources`, up to the call into the directory-search loader:
     returns the template name and directory list that call receives.  An
     application-scoped identifier sets the cache entry of the application it
     names (the prefix without its `-`) and no other; an unscoped identifier
     leaves the cache alone.
     */
    method GetTemplateSources(templateName: string, templateDirs: Option<seq<Dir>>)
      returns (name: string, dirs: seq<Dir>)
      requires dirCache.Valid()
      modifies dirCache`cache
      ensures dirCache.Valid()
      ensures (name, dirs) == TemplateSources(templateName, templateDirs, appTemplateDirs,
                                              app => AppTemplateDir(dirCache.installedApps, dirCache.appDir, app))
      ensures forall k :: k in old(dirCache.cache) ==> k in dirCache.cache && dirCache.cache[k] == old(dirCache.cache)[k]
      ensures ':' !in templateName ==> dirCache.cache == old(dirCache.cache)
      ensures ':' in templateName ==>
                var prefix := SplitOnce(templateName, ':').value.0;
                var app := if |prefix| > 0 && prefix[0] == '-' then prefix[1..] else prefix;
                dirCache.cache == old(dirCache.cache)[app := AppTemplateDir(dirCache.installedApps, dirCache.appDir, app)]
    {
      if templateDirs.None? || templateDirs.value == [] {
        dirs := appTemplateDirs;
      } else {
        dirs := templateDirs.value;
      }
      name := templateName;
      if ':' in templateName {
        var split := SplitOnce(templateName, ':');
        var appName := split.value.0;
        name := split.value.1;
        if |appName| > 0 && appName[0] == '-' {
          appName := appName[1..];
          var appDir := dirCache.GetAppTemplateDir(appName);
          dirs := RemoveFirst(dirs, appDir);
        } else {
          var appDir := dirCache.GetAppTemplateDir(appName);
          dirs := [appDir];
        }
      }
    }
  }
}
