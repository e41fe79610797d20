# Jalv plugin loader, modelled in Dafny

The jalv plugin loader is a small GTK window that lists the LV2 plugins
installed on a machine and starts the chosen one in the `jalv` plugin host.
This project models the loader's logic in Dafny and proves properties of it.
All of that logic is in `jalv_loader.py`:

- **The catalog** (`Catalog`, `catalog.dfy`). The output of `lv2ls -n` holds
  one display name per line, and the output of `lv2ls` one plugin URI per
  line. `dict(zip(names, urls))` pairs them by position. The dict is
  modelled as a sequence of `Entry(name, uri)` in insertion order, so it can
  say what a Python dict does. `zip` stops at the shorter list. A repeated
  name keeps the position of its first occurrence and takes the URI of its
  last one.
- **Substring search** (`Text`, `text.dfy`). Lower-casing and Python's `in`
  on strings.
- **The filter** (`View`, `view.dfy`). `Keep(rows, q)` is the sequence of
  rows whose lower-cased name contains `q`. Its lemmas prove it keeps order,
  keeps exactly the matching rows, keeps every row for the empty query, and
  depends on history.
- **The window** (`Loader`, `loader.dfy`). A class with the list store's rows
  (a `seq` field that the methods reassign), the host toggle's label and
  flag, the selected plugin, the header subtitle and the info label. Each
  event handler is a method:
  - `ReadChannels` and `VisibleCb` are loops.
  - `ToggleGtk` and `ShowInfo` update fields.
  - `OpenPlugin` builds the launch command, specified by the function
    `LaunchCmd`.
- **Clients** (`Scenarios`, `scenarios.dfy`). These methods chain the
  handlers:
  - Two toggles restore the host.
  - Filter, clear, select, then launch in either host.
  - A backspace in the query does not bring rows back.

The search filter narrows the rows that are currently shown, not the
catalog (`jalv_loader.py:148-156`). A non-empty query removes rows from
whatever the list holds. Only an empty query reloads the whole catalog.
Typing a longer query onto rows that the shorter query selected from the
catalog gives the catalog's matches for the longer query
(`View.KeepRefines`). Deleting a character is not: rows that the longer
query removed stay removed (`View.KeepForgetsRemoved`,
`Scenarios.Backspace`). So the rows shown are not always the catalog
entries whose name contains the query.

## Model

| member | source | states |
|---|---|---|
| Text.Lower | jalv_loader.py:149 | the result has the input's length and each character lower-cased (ASCII letters only) |
| Text.Contains | jalv_loader.py:153 | Python's `needle in hay`: it holds only when the needle is no longer than the string searched (`ContainsIff` gives the full characterization) |
| Text.ContainsIff | jalv_loader.py:153 | `query in name` holds exactly when the query occurs at some position of the name |
| Text.ContainsEmpty | jalv_loader.py:150-153 | the empty query occurs in every name |
| Text.ContainsTransitive | jalv_loader.py:153 | a substring of a substring of a name is a substring of the name |
| Catalog.Zip | jalv_loader.py:57 | `zip` has min(\|names\|, \|urls\|) pairs, pair i being (names[i], urls[i]) |
| Catalog.Put | jalv_loader.py:57 | storing a key keeps the dict's length when the key exists, else appends exactly that entry at the end |
| Catalog.PutAt | jalv_loader.py:57 | storing a key replaces the entry with that name in place and leaves every other entry where it was |
| Catalog.PutKeys | jalv_loader.py:57 | after storing, the keys are the old keys plus the stored one |
| Catalog.PutNew | jalv_loader.py:57 | storing a new key appends it |
| Catalog.PutUnique | jalv_loader.py:57 | storing keeps the keys pairwise distinct |
| Catalog.Dict | jalv_loader.py:57 | `dict(pairs)` has at most as many entries as there are pairs |
| Catalog.DictUnique | jalv_loader.py:57 | the keys of `dict(pairs)` are pairwise distinct |
| Catalog.DictKeys | jalv_loader.py:57 | a name is a key of `dict(pairs)` exactly when some pair has that name |
| Catalog.DictValue | jalv_loader.py:57 | each key holds the pair with the last occurrence of its name (last write wins) |
| Catalog.DictOrder | jalv_loader.py:57 | keys are ordered by the first occurrence of their names among the pairs |
| Catalog.DictOfUnique | jalv_loader.py:57 | with no repeated name, `dict(pairs)` is the pairs themselves, in order |
| Catalog.BuildCatalog | jalv_loader.py:57 | the catalog never has more entries than either line list |
| Catalog.CatalogKeys | jalv_loader.py:43-57 | a name is a key of the catalog exactly when it is among the first min(\|names\|, \|urls\|) names |
| Catalog.CatalogValue | jalv_loader.py:43-57 | a key's uri is urls[j] for the largest j below that bound with names[j] equal to the key |
| Catalog.CatalogOrder | jalv_loader.py:43-57 | key order follows the first occurrence of each name; a later duplicate does not move its key |
| Catalog.CatalogOfDistinctNames | jalv_loader.py:43-57 | with distinct names, the catalog has exactly min(\|names\|, \|urls\|) entries and entry i is (names[i], urls[i]) |
| View.Matches | jalv_loader.py:153 | the test `search_query in row[0].lower()`: a row can match only a query no longer than its name |
| View.Keep | jalv_loader.py:152-156 | filtering never adds rows |
| View.KeepLast | jalv_loader.py:152-156 | filtering one more row appends it exactly when its lower-cased name contains the query |
| View.KeepMembers | jalv_loader.py:152-156 | a row survives exactly when it was present and its lower-cased name contains the query |
| View.KeepIsSubsequence | jalv_loader.py:152-156 | the surviving rows are a subsequence of the rows: same relative order, contents unchanged |
| View.KeepEmptyQuery | jalv_loader.py:150-156 | the empty query removes no row |
| View.KeepRefines | jalv_loader.py:148-156 | narrowing a query (the new one contains the old) gives the same rows as filtering the unfiltered rows |
| View.KeepForgetsRemoved | jalv_loader.py:148-156 | a row removed by one query stays removed under a later query that it matches |
| View.KeepTwice | jalv_loader.py:148-156 | after two queries exactly the rows matching both remain |
| Loader.NextLabel | jalv_loader.py:131-137 | one click turns "gtk3" into "qt5" and anything else into "gtk3" |
| Loader.NextLabelInvolution | jalv_loader.py:131-137 | two clicks restore a valid label |
| Loader.HostExecutable | jalv_loader.py:163-166 | the host is "jalv.gtk3" exactly when gtk3 is chosen, otherwise "jalv.qt5" |
| Loader.Window.constructor | jalv_loader.py:67-128 | a new window uses gtk3 (label "gtk3"), has no selection, shows the plugin count and "Info", and lists the whole catalog |
| Loader.Window.ToggleGtk | jalv_loader.py:131-137 | flips the label and negates the flag, keeping flag == (label == "gtk3") |
| Loader.Window.ReadChannels | jalv_loader.py:140-145 | the rows become the catalog's entries in catalog order, earlier rows discarded |
| Loader.Window.VisibleCb | jalv_loader.py:148-156 | empty query: rows equal the catalog; otherwise the new rows are the old rows whose lower-cased name contains the lower-cased query, a subsequence in the same order |
| Loader.Window.ShowInfo | jalv_loader.py:185-189 | the selection becomes the activated row's name and uri, the subtitle its name, the info label "name - uri"; the rows are untouched |
| Loader.Window.OpenPlugin | jalv_loader.py:158-166 | returns the launch command; with a selection it sets the info label to "... loading name", without one it fails and changes nothing |
| Loader.Window.LaunchCmd | jalv_loader.py:158-166 | fails exactly when nothing is selected; otherwise two elements, the host named on the toggle label ("jalv." + label), then the selected uri |
| Scenarios.ToggleTwice | jalv_loader.py:131-137 | two toggles restore label and flag; only those two fields may change, so rows, selection, subtitle and info stay as they were |
| Scenarios.ThreePluginWindow | jalv_loader.py:57-128 | a window built from three distinct names and uris lists them in order |
| Scenarios.FilterSelectLaunch | jalv_loader.py:131-189 | filter, clear, select the third plugin, toggle: the command is ["jalv.qt5", its uri] |

## Left out

- Widget construction, icons, theme, layout and window lifecycle
  (`jalv_loader.py:60-126`, `193-198`). This is presentation only. The
  icon column of the list store is dropped from the row type.
- The startup check for `jalv.gtk3` and `lv2ls`, with its desktop
  notification and `sys.exit` (`jalv_loader.py:14-35`). These are calls
  into the environment.
- Running `lv2ls` and splitting its output (`jalv_loader.py:41-55`). The
  two line lists are inputs of `BuildCatalog`.
  - A failing second call leaves `url_list` empty. That case is covered:
    `zip` then yields an empty catalog.
  - A failing first call is not modelled. The variable set beforehand is
    `names_list`, but line 57 reads `name_list`, so it raises `NameError`.
- `GLib.spawn_async` and the error dialog (`jalv_loader.py:169-183`). This
  is process creation and modal UI. Only the argument vector is modelled.
- Whether removing rows from a `Gtk.ListStore` while iterating over it
  skips rows (`jalv_loader.py:152-156`). That depends on GTK's iterators.
  `VisibleCb` removes every non-matching row, using an index that advances
  only past kept rows.
- `Text.Lower`: lower-cases only ASCII `A`-`Z`. Python's `str.lower` also
  folds non-ASCII letters, so names with such letters may match differently.
- Launching before any selection. In `jalv_loader.py:159` this raises
  `AttributeError` inside the click handler, so nothing is spawned. It is
  modelled as the result `Err(NoSelection)`.
- The activated path is modelled as a row index, not a `Gtk.TreePath`.
- The header's "N plugins found" text is modelled as `PluginCount(N)`.
- `print` calls and the unused `old_tag` attribute.
