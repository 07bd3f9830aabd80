# django-apptemplates, modelled in Dafny

`apptemplates` is a Django template loader. It lets a template name be scoped
to one installed application. `{% extends "admin:admin/base.html" %}` searches
only the `templates` directory of the application whose dotted module name ends
in `admin`. `{% extends "-myapp:admin/base.html" %}` searches the usual
directories with `myapp`'s directory taken out, so a template can extend the
template it overrides.

The loader has two pieces of logic, and `apptemplates.dfy` (module
`AppTemplates`) models both:

- **`get_app_template_dir`** is modelled by the class `AppDirCache`. It holds the
  process-wide `_cache` (`cache: map<string, Option<string>>`), the installed
  applications (`INSTALLED_APPS`, `installedApps: seq<string>`) and `appDir`.
  `appDir` stands for importing a module and joining its directory with
  `templates`. The method `GetAppTemplateDir` runs the source's loop with its
  `break`. It is proved against the pure scan `AppTemplateDir`. The object
  invariant `Valid()` says that every cached entry, including a cached `None`,
  equals a fresh scan.
- **`Loader.get_template_sources`** is modelled by `Loader.GetTemplateSources`.
  The model stops at the `(template name, directory list)` pair that the source
  passes to Django's directory-search loader. The method is proved equal to the
  pure function `TemplateSources`. The lemmas give the three cases:
  - no `:` means everything passes through unchanged;
  - `-app:` means the first occurrence of the app's directory is removed;
  - `app:` means the list becomes `[lookup(app)]`.

A directory entry has type `Dir = Option<string>` because include mode can
produce `[None]`. The caller's `template_dirs` is `Option<seq<Dir>>`, where
`None` is Python's `None`. An empty list, like `None`, selects the default
`app_template_dirs`.

## Model

| member | source | states |
|---|---|---|
| `AppTemplates.FirstIndex` | apptemplates/__init__.py:73 | `':' in template_name`: the result is absent exactly when the character does not occur. Otherwise it is the position of an occurrence with none before it. |
| `AppTemplates.SplitOnce` | apptemplates/__init__.py:74 | `split(":", 1)` is absent exactly when there is no `:`. Otherwise the prefix has no `:`, and prefix + `:` + remainder is the original identifier (the remainder may contain `:`). |
| `AppTemplates.SplitOnceUnique` | apptemplates/__init__.py:74 | Any decomposition `prefix + ":" + rest` with a `:`-free prefix is the split that is found, so the split is at the first `:`. |
| `AppTemplates.LastSegment` | apptemplates/__init__.py:56 | `app.split('.')[-1]` contains no `.`. |
| `AppTemplates.LastSegmentIsLongestDotFreeSuffix` | apptemplates/__init__.py:56 | The last segment is a suffix of the module name. When it is shorter than the name, a `.` comes right before it. |
| `AppTemplates.LastSegmentOfPlainName` | apptemplates/__init__.py:56 | A module name without dots is its own last segment. |
| `AppTemplates.LastSegmentOfDotted` | apptemplates/__init__.py:56 | The last segment of `package.name` is `name`, e.g. `admin` for `django.contrib.admin`. |
| `AppTemplates.AppTemplateDir` | apptemplates/__init__.py:54-61 | The scan gives `None` exactly when no installed application's last segment equals the requested name. |
| `AppTemplates.FirstMatchWins` | apptemplates/__init__.py:54-61 | When application `k` is the first match in `INSTALLED_APPS` order, the scan gives `appDir(apps[k])`. |
| `AppTemplates.LaterAppsIgnored` | apptemplates/__init__.py:55-61 | Once some application matches, appending more applications does not change the result, because the loop breaks at the first match. |
| `AppTemplates.AdminExample` | apptemplates/__init__.py:8-10 | With `django.contrib.admin` and `myproject.myapp` installed, `admin` resolves to the admin package's template directory. An unlisted name resolves to `None`. |
| `AppTemplates.AdminIncludeExample` | apptemplates/__init__.py:8-10 | With those installed applications, the documented identifier `admin:admin/base.html` is handed on as `admin/base.html` with exactly the admin package's template directory as the search list. |
| `AppTemplates.AdminExcludeExample` | apptemplates/__init__.py:20-22 | With those installed applications, `-admin:admin/base.html` on a search list that holds the admin directory once is handed on as `admin/base.html` with that directory removed and the other entries in order. |
| `AppTemplates.AppDirCache.constructor` | apptemplates/__init__.py:42 | The cache starts empty, and the invariant (every entry equals a fresh scan) holds. |
| `AppTemplates.AppDirCache.GetAppTemplateDir` | apptemplates/__init__.py:44-63 | A cache hit returns the stored value, possibly `None`, and leaves the cache unchanged. A miss returns the first-match scan. Afterwards `cache[app_name]` is the returned value and every other entry is unchanged. The invariant is preserved, so the returned value always equals a fresh scan. |
| `AppTemplates.RepeatedLookup` | apptemplates/__init__.py:52-63 | Two lookups of the same name return the same value. The second changes nothing in the cache. |
| `AppTemplates.EffectiveDirs` | apptemplates/__init__.py:70-71 | A falsy `template_dirs` (`None` or empty) is replaced by the default list. Any other list is kept as given. |
| `AppTemplates.RemoveFirst` | apptemplates/__init__.py:79-83 | Removing a present element shortens the list by one. Removing an absent element, the swallowed `ValueError`, returns the list unchanged. The multiset loses exactly one copy of the element. |
| `AppTemplates.RemoveFirstAt` | apptemplates/__init__.py:80-81 | When `k` is the first position holding the element, the result is the list without position `k`. All other entries keep their relative order. |
| `AppTemplates.TemplateSources` | apptemplates/__init__.py:69-89 | An identifier without `:` is passed on unchanged, with the defaulted directory list unchanged. With a `:`, the template name becomes strictly shorter because the prefix is dropped. |
| `AppTemplates.ExcludeRewrite` | apptemplates/__init__.py:77-83 | `-app:rest` yields `rest` and the defaulted list with the first occurrence of `lookup(app)` removed. Exactly one leading `-` is stripped. |
| `AppTemplates.ScopedIdentifierCases` | apptemplates/__init__.py:73-86 | Every identifier containing `:` is either `-app:rest` (exactly when it starts with `-`) or `app:rest` with `app` not starting with `-`, with a `:`-free `app`, so exactly one of the two rewrite lemmas applies. |
| `AppTemplates.ExcludeListedDir` | apptemplates/__init__.py:77-83 | When the excluded application's directory is listed at first position `k`, the result is the list without position `k`. It is one entry shorter and keeps order. |
| `AppTemplates.ExcludeUnlistedDir` | apptemplates/__init__.py:79-83 | When the excluded application's directory is not listed, the list is returned unchanged. This includes an unknown application, whose lookup gives `None`. |
| `AppTemplates.IncludeRewrite` | apptemplates/__init__.py:85-86 | `app:rest`, with `app` not starting with `-`, yields `rest` and exactly `[lookup(app)]`. That is `[None]` for an unknown application. |
| `AppTemplates.Loader.GetTemplateSources` | apptemplates/__init__.py:69-89 | The pair handed to the directory-search loader equals `TemplateSources` with a fresh scan as lookup. The cache invariant is preserved. Existing cache entries never change. An identifier without `:` leaves the cache untouched. An identifier with `:` sets exactly one entry, for the prefix without its leading `-`, to that application's scan result. |

## Left out

- The import of a matched application and the path computation (`import_module`, `mod.__file__`, `abspath`, `dirname`, `join`) are not modelled. They are the uninterpreted function value `appDir`. Import errors, which the source lets propagate, are not modelled.
- `django.conf.settings.INSTALLED_APPS` and `app_template_dirs` are constants supplied when the model's objects are built. The model does not follow later changes to the settings. The source's cache would go stale if they changed, and the model's `Valid()` assumes they do not.
- `super(Loader, self).get_template_sources(...)` is Django's own loader and is not part of this model. The model ends at the arguments passed to it.
- `is_usable` and the subclassing of Django's application-directories loader are framework glue and are left out.
- Concurrent access to the shared `_cache` is not modelled. The model is single-threaded.
- `list(template_dirs)` copies the caller's list before `.remove`. In the model, lists are immutable sequences, so the caller's list can never change. The copy is implicit and aliasing is not modelled.
- A direct file-path loader variant (joining an application's directory with the template name) is not part of this source file, so it is not modelled.
