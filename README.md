# citelang credit and manifest core, in Dafny

This project models the core of citelang. citelang gives credit to the
software a package depends on. It walks the dependency graph of a package,
splits a unit of credit between each package and its dependencies, and
renders the result as tables, trees, badges and markdown citation tables.
It also counts per-author contributions from `git blame` output and keeps a
user settings file. The model covers the following parts of citelang:

- **Credit engine.** `BaseClient._graph` (the breadth-first credit walk
  with its stop rules and its redistribution on stop) and the `Node` of
  `graph/graph.py` are modelled over an arena of nodes addressed by index
  (`CreditGraph`, `CreditEngine`). `Tree.parse_data` and the table helpers
  of `result.py` and `table.py` flatten and tabulate that tree
  (`CreditTree`, `ResultTable`).
- **Libraries.io endpoints and packages.** The endpoint formats and their
  `order` methods (`Endpoints`) and `package.Package` (`Packages`) are
  modelled. So are the custom managers of `packages/base.py`, with their
  name normalisation and their lookups through the cache (`Managers`).
  `cache.py`, the in-memory and on-disk result cache with its empty-result
  marks, is `PackageCache`.
- **Contributions.** `parse_blame_output` (`Blame`), the `iter_items`
  generator with its filters and author aliases (`Contrib`) and the
  `by_file`/`by_author` summaries (`ContribSummary`) are modelled. So is
  `update_nested` of `utils/string.py` (`NestedUpdate`), which the summaries
  rely on.
- **Markdown citations.** `parser.py` finds the citelang block of a
  markdown file, collects the packages it names, credits them and splices
  the table back into the text (`MarkdownParser`).
- **Badge.** `get_ids` and `unwrap_tree`, which flatten a credit tree for
  the sunburst badge (`Badge`).
- **Settings.** `settings.py` (get, set, add, remove, delete, the `key:sub`
  and `$VAR` conventions, `update_params`) is `Settings.SettingsStore`, a
  class whose fields the methods update. It is validated by the predicate
  of `schemas.py`.
- **Manifest scanners.** One module per scanner: `CMakeList`, `GoMod`,
  `Cran`, `Gemfile`, `PythonDeps` (the shared `parse_python_deps`), `Npm`
  and `Requirements`.

Python values are the `Json.Value` datatype. Python's `str()` of a value
is `Json.Text`, and truthiness is `Json.Truthy`. An operation that can
raise returns `Result`, with the Python exception (`KeyError`, `TypeError`,
`AttributeError`, `ValueError`, `NameError`, `IndexError`, or a
`logger.exit`) as its error. Lookups on the network, the clock, `round` and
`str` of floats, `os.path.expandvars` and the iteration order of Python
sets are parameters of the operations that use them.

Where the code has a defect (see "## Findings"), the model holds both
halves. The definition as written is the one the methods and the lookups
run: `Package.order` reading the missing "versions", `update_param`
ignoring "rm", `update_params` splitting a param it warned about, and
`parse_python_deps` skipping every line that holds "-e", and
`get_settings_file` reading an attribute that `citelang/defaults.py` does
not define. The corrected
definition sits beside it, and the table marks its lemmas as the corrected
half. `update_nested` and `iter_items` take a `Rule` that selects one of
the two.

Two places where citelang's documentation and its code differ: the model
follows the code.

- `_graph` defaults `credit_split` to 0.01, not 0.5.
- A dependency entry without a "name" key, or with an empty name and no
  "project_name" key, raises a `KeyError` at `base.py:212`; it is not
  skipped.

## Model

| member | source | states |
|---|---|---|
| `CreditGraph.NewNode` | citelang/main/graph/graph.py:7-24 | a new node carries the given name, weight, split, depth, min_credit and root flag, has no children and no total credit |
| `CreditGraph.AddChild` | citelang/main/graph/graph.py:51-56 | the child is stored with depth = parent depth + 1 and its index is appended at the end of the parent's children; every other node is unchanged |
| `CreditGraph.AddChildKeepsForest` | citelang/main/graph/graph.py:51-56 | adding a childless child keeps every child index after its parent, so the arena stays a forest |
| `CreditGraph.Credit` | citelang/main/graph/graph.py:58-62 | `credit` is total_credit when it is set and non-zero (Python truthiness), otherwise credit_split × weight |
| `CreditGraph.RoundBy` | citelang/main/graph/graph.py:44-49 | `round_by` is the length of the text after the first "." of str(min_credit), of the whole text when there is no ".", and 3 when that text is empty; always positive |
| `CreditGraph.IterNodes` | citelang/main/graph/graph.py:26-34 | the pop-front / append-children worklist visits every node of a breadth-first arena exactly once, in index order, root first |
| `CreditGraph.IterStep` | citelang/main/graph/graph.py:30-34 | popping the front node and appending its children moves the worklist window from [k, start(k)) to [k+1, start(k+1)) |
| `CreditGraph.LayoutIsForest` | citelang/main/graph/graph.py:51-56 | in a breadth-first arena every child index lies after its parent and inside the arena |
| `CreditEngine.DepName` | citelang/main/base.py:212-214 | `dep["name"] or dep["project_name"]`: a missing key is a KeyError, an empty or "__"-prefixed result produces no child, otherwise the name |
| `CreditEngine.KeptNames` | citelang/main/base.py:209-214 | the kept names are at most as many as the entries; a failure is always a KeyError |
| `CreditEngine.KeptNamesSpec` | citelang/main/base.py:209-214 | the kept names fail exactly when some entry raises; each kept name is non-empty and not "__"-prefixed; with nothing skipped the t-th kept name is entry t's name |
| `CreditEngine.Fresh` | citelang/main/base.py:217-223 | one new node per name, each with the given weight and depth, the run's split and min_credit, not the root |
| `CreditEngine.AttachShape` | citelang/main/base.py:209-225 | after attaching, the parent's children grow by the new block of indices at the end, other nodes are untouched, and each new node is a fresh child at depth + 1 |
| `CreditEngine.Adopt` | citelang/main/base.py:224-228 | `add_child`, `next_nodes.append` and `previous.append`: the arena grows by the child and its index goes to the back of both queue and `previous` |
| `CreditEngine.Expand` | citelang/main/base.py:209-228 | the inner loop over the entries: a KeyError exactly when some entry raises, otherwise one child per kept entry, in entry order, appended to the parent, the queue and `previous` |
| `CreditEngine.Redistribute` | citelang/main/base.py:184-205 | the stopping node gets its weight; every node of `previous` (all non-root nodes) ends with its own pass's value: weight − k × ((1 − split) × weight / k) with k children, its weight with none; names, weights and children are unchanged |
| `CreditEngine.Start` | citelang/main/base.py:125-136 | the run starts with the root alone: the root's name, weight 1.0, depth 0, is_root |
| `CreditEngine.StartProgress` | citelang/main/base.py:122-142 | the start state (queue [root], empty `previous`, `seen`, `node_names`) satisfies the loop invariant |
| `CreditEngine.LeafProgress` | citelang/main/base.py:166-170 | popping a node without dependencies adds its name to `seen` and `node_names` and creates nothing |
| `CreditEngine.ExpandProgress` | citelang/main/base.py:209-228 | expanding a node keeps the invariant (breadth-first layout, FIFO queue, mass), stays under the size bound, and changes no stop decision already taken |
| `CreditEngine.StopProgress` | citelang/main/base.py:182-206 | after the redistribution every non-root credit is its final share, the root keeps 1.0 only when it was the stopping node, and the credits are the final shares |
| `CreditEngine.MassExpand` | citelang/main/base.py:172-178 | an allowed split (share ≥ min_credit) never adds credit mass, keeps it exactly when no entry was skipped, and keeps every share above a positive floor |
| `CreditEngine.GrownMass` | citelang/main/base.py:174 | keeping split × w and handing (1 − split) × w / d to k ≤ d children never increases the sum, keeps it when k = d, and keeps the floor |
| `CreditEngine.CountBound` | citelang/main/base.py:144 | with shares at least a positive floor that sum to at most 1, the arena has fewer nodes than a fixed bound, so the loop ends |
| `CreditEngine.SizeBound` | citelang/main/base.py:144 | a node count that no arena of shares above the floor can reach |
| `CreditEngine.WeightFloor` | citelang/main/base.py:174-178 | every node of the arena has weight at least min(min_credit, 1) |
| `CreditEngine.LeafLooping` | citelang/main/base.py:158-170 | a node without dependencies keeps the loop invariant; when a depth or deps limit fired on it the loop ends with no redistribution |
| `CreditEngine.ExpandNode` | citelang/main/base.py:209-225 | the expansion of a node that passed all three stop rules either raises a KeyError or keeps the loop invariant |
| `CreditEngine.StopNode` | citelang/main/base.py:182-206 | a stop rule firing on a node with dependencies ends the run in the redistributed outcome, with that node popped but not expanded |
| `CreditEngine.PopNode` | citelang/main/base.py:144-178 | one pass: pop the front, record names, test max_depth, then max_deps (0 = no limit), then the share; a leaf continues, a stop with dependencies breaks, an expansion continues or raises |
| `CreditEngine.Drive` | citelang/main/base.py:144-228 | the `while next_nodes and not stop_looking` loop ends with the queue empty, a stop on a leaf, a break for redistribution, or a KeyError |
| `CreditEngine.Conclude` | citelang/main/base.py:180-232 | after the loop the graph is finished in one of three outcomes, with `children_names` the recorded names |
| `CreditEngine.FinishLoop` | citelang/main/base.py:230-232 | a loop that ended because the queue emptied or a limit fired on a leaf leaves no total credit set and every popped node expanded |
| `CreditEngine.FinishStop` | citelang/main/base.py:182-206 | a loop that broke for redistribution gives the finished, redistributed graph |
| `CreditEngine.BuildGraph` | citelang/main/base.py:97-232 | `_graph`: it fails only in the failed outcome, and a failure is always a KeyError; otherwise the breadth-first arena where every child has depth + 1, weight ((1 − split) × parent weight) / len(deps) ≥ min_credit, children in entry order, FIFO expansion, `children_names` = every popped name plus every recorded dependency name, and the outcome says which stop rule ended it |
| `CreditEngine.NodeNamesHold` | citelang/main/base.py:166-167 | every popped node's name is among the recorded names |
| `CreditGraph.TotalNodes` | citelang/main/graph/graph.py:36-38 | `total_nodes` is the number of distinct recorded names: 0 exactly when none is recorded, at least 1 otherwise |
| `CreditEngine.TotalNodesCounts` | citelang/main/graph/graph.py:36-38 | `total_nodes` of a finished graph is at least 1: the root name and every popped name are in `children_names` |
| `CreditEngine.RedistributedConserves` | citelang/main/base.py:184-205 | when the run ends through the redistribution and no entry was skipped, the credits of all nodes sum to 1.0 |
| `CreditEngine.SelfLoopNeverStops` | citelang/main/base.py:158-178 | with credit_split 0, no max_depth and a package depending on itself, every pop passes all stop rules and re-creates the same node with weight 1.0 |
| `CreditTree.Add` | citelang/main/result.py:214-226 | the inner `add`: the children dicts mirror the node's children in order and the returned total is the old total plus the credit of the whole subtree |
| `CreditTree.ParseData` | citelang/main/result.py:202-230 | `parse_data`: the data mirrors the tree (name, credit, weight, round_by, children in order), its total is the sum of the credits in it, and over a breadth-first arena the total is the sum of every node's credit and the mirror has one dict per node |
| `CreditTree.MirrorTotal` | citelang/main/result.py:214-226 | the credits in a node's mirror add up to the credit of its subtree |
| `CreditTree.MirrorCount` | citelang/main/result.py:214-226 | a node's mirror has one dict per node of its subtree |
| `CreditTree.RootIsAll` | citelang/main/graph/graph.py:26-34 | in a breadth-first arena the subtree of the root is the whole arena |
| `CreditTree.TreeTotalIsOne` | citelang/main/result.py:228-230 | after a redistributed `_graph` run with no skipped entry, the total `parse_data` reports is 1.0 |
| `ResultTable.KeySet` | citelang/main/table.py:81-83 | the collected field names are exactly the keys that occur in some dict entry |
| `ResultTable.FillGet` | citelang/main/table.py:88-90 | a completed entry has every field of the walk: its own value where it had one, "" where it had none; other keys unchanged |
| `ResultTable.FillDistinct` | citelang/main/table.py:88-90 | completing an entry keeps its keys distinct |
| `ResultTable.Len` | citelang/main/table.py:97-99 | `len(v)` succeeds exactly on strings, lists and dicts |
| `ResultTable.WidenEntryOk` | citelang/main/table.py:92-99 | one entry's field loop fails exactly when a field of the truncate list holds a value with no length |
| `ResultTable.WidenEntryAt` | citelang/main/table.py:92-99 | one entry raises each recorded width to the length of its value, for truncate-list fields only |
| `ResultTable.WidenAllOk` | citelang/main/table.py:86-99 | the entries loop fails exactly on an entry and truncate-list field whose value has no length |
| `ResultTable.WidenAllAt` | citelang/main/table.py:86-99 | after the loops each truncate-list field holds the maximum of its old width and the lengths of its values; every other width is unchanged |
| `ResultTable.CompletedEntries` | citelang/main/result.py:89-102 | after completion every entry has every key that appears in any entry; missing keys are "" and existing values are unchanged |
| `ResultTable.CompletedWidths` | citelang/main/result.py:104-111 | starting from no widths, `max_widths[f]` for each truncate-list field f that occurs is the maximum length of f over all entries, and nothing else is recorded; it fails exactly when such a value has no length |
| `ResultTable.CompleteEntry` | citelang/main/table.py:87-99 | the inner loop for one entry fills each missing field with "" and widens the widths, or stops with the `len` error |
| `ResultTable.CompleteEntries` | citelang/main/table.py:86-99 | the outer loop completes every entry and ends with the widths of the whole walk, or with its first error |
| `ResultTable.Table.EnsureCompleteList` | citelang/main/table.py:77-99 | a non-dict entry raises before anything changes; otherwise the entries are completed and `max_widths` recorded, or the `len` error is raised midway |
| `ResultTable.TruncDivBounds` | citelang/main/table.py:67 | for a non-negative dividend and positive divisor the truncated quotient is the floor |
| `ResultTable.TruncDivNegative` | citelang/main/table.py:67 | for a negative divisor the truncated quotient is minus the floor of a / −b |
| `ResultTable.AvailableWidthMeans` | citelang/main/result.py:54-79 | ZeroDivisionError exactly when there are no columns, or the widths fit and every column has a width; int(width / len(columns)) when the widths exceed the terminal, else int((width − Σ widths) / (len(columns) − len(max_widths))) |
| `ResultTable.Table.AvailableWidth` | citelang/main/table.py:42-67 | the method returns the two-case formula for the terminal width, 120 when the terminal cannot be read |
| `ResultTable.FirstRowKeys` | citelang/main/table.py:127 | `list(data[0].keys())` succeeds exactly on a non-empty list whose first item is a dict, and gives its keys in order |
| `ResultTable.UnskippedMembers` | citelang/main/table.py:128-131 | a column is a key of the first row that is not in the skip list |
| `ResultTable.UnskippedAppend` | citelang/main/table.py:128-131 | skipping keeps the keys' order |
| `ResultTable.UnskippedNone` | citelang/main/table.py:128-131 | with nothing to skip every key is a column, in order |
| `ResultTable.CollectColumns` | citelang/main/table.py:126-132 | the loop of `table_columns` returns the keys not in the skip list, in order |
| `ResultTable.Table.TableColumns` | citelang/main/table.py:118-132 | `table_columns` is the first flattened row's keys minus skip_list; flattening failures are returned as errors and leave the data as it was |
| `ResultTable.RowsOf` | citelang/main/table.py:144 | `enumerate(data)` walks a list's items; only lists, dicts and strings can be walked |
| `ResultTable.RowCell` | citelang/main/table.py:152 | `row[column]` succeeds exactly on a dict row that has the column, and gives its value |
| `ResultTable.RowCount` | citelang/main/result.py:146-150 | the rows walked: all of them for limit 0, none for a negative limit, otherwise min(n, limit + 1) |
| `ResultTable.PyPrefix` | citelang/main/table.py:158 | `content[:n]` is a prefix of the content, of length n for 0 ≤ n ≤ len, the whole text past the end, and Python's negative-index cut for n < 0 |
| `ResultTable.CellTextMeans` | citelang/main/result.py:152-160 | a falsy cell is ""; a truthy one is str(value) (`Json.Text`), or its first column_width characters followed by "..." when longer than column_width and the column is not in truncate_list; a non-empty string cell that fits shows the string itself, an integer cell its decimal digits |
| `ResultTable.RowText` | citelang/main/table.py:150-160 | one row holds one cell text per column, in column order |
| `ResultTable.BuildRow` | citelang/main/table.py:150-161 | the inner loop gives the row's cell texts, or the error of the first column it cannot read |
| `ResultTable.BuildRows` | citelang/main/table.py:144-162 | the outer loop renders the walked rows, or the rows before the first unreadable one and its error |
| `ResultTable.RowsBound` | citelang/main/table.py:144-149 | `table_rows` yields at most limit + 1 rows for a positive limit, every row for limit 0 and none for a negative limit |
| `ResultTable.Table.TableRows` | citelang/main/table.py:134-160 | `table_rows` run to its end: the available-width error, or the rows yielded (bounded by the limit, long cells truncated) and the error that stopped it |
| `ResultTable.TitleOf` | citelang/main/table.py:177 | table.py's title is `column.capitalize()`, as long as the column |
| `ResultTable.WordsTitleLength` | citelang/main/result.py:185 | result.py's title (each "_"-separated word capitalized, joined by spaces) is as long as the column and as table.py's title |
| `ResultTable.TitlesAgree` | citelang/main/result.py:185 | for a column name without "_" the two title rules agree |
| `ResultTable.OrEmpty` | citelang/main/table.py:32 | `data or {}`: truthy data is kept, falsy data becomes an empty dict |
| `ResultTable.Table.constructor` | citelang/main/table.py:28-36 | the constructor stores the endpoint and the data and starts with empty `max_widths` |
| `ResultTable.NewTable` | citelang/main/table.py:28-37 | `Result(data, endpoint)`: data = endpoint.order(data or {}) as written, empty max_widths, then list data is completed; an ordering error, such as KeyError for package data without "versions", is returned |
| `ResultTable.RewriteKeepsRequireParams` | citelang/main/endpoints.py:26-27 | rewriting the manager leaves the `require_params` keyword alone |
| `ResultTable.EndpointArgs` | citelang/main/endpoints.py:31-33 | the keyword arguments the endpoint is built with never hold `require_params` |
| `ResultTable.BuildEndpoint` | citelang/main/endpoints.py:30-33 | without data a `require_params` keyword collides (TypeError); otherwise a fresh endpoint of the kind with the computed params |
| `ResultTable.GetEndpoint` | citelang/main/endpoints.py:17-34 | an unknown name exits; a "requirements.txt" manager becomes "pypi"; the endpoint found by name is built and its result table made, through the as-written order, from the data or the fetched url |
| `Endpoints.AttributeOrList` | citelang/main/endpoints.py:92-96 | an attribute's list, or [] when it is missing or None |
| `Endpoints.TruncateLists` | citelang/main/endpoints.py:98-104 | `truncate_list` is ["project_name"] for dependencies and ["url"] otherwise; `skip_list` has four names for package and one otherwise |
| `Endpoints.RegistryNames` | citelang/main/endpoints.py:186-190 | `registry_names` holds the three registered names |
| `Endpoints.RegistryNamesSorted` | citelang/main/endpoints.py:190 | `registry_names` is sorted |
| `Endpoints.Lookup` | citelang/main/endpoints.py:186-188 | the registry maps exactly the registered names, each to the class of that name |
| `Endpoints.RewriteManager` | citelang/main/endpoints.py:26-27 | a "requirements.txt" manager becomes "pypi"; every other keyword and every other manager is unchanged |
| `Endpoints.FormatLiteral` | citelang/main/endpoints.py:77 | `str.format` copies text without braces unchanged |
| `Endpoints.FormatField` | citelang/main/endpoints.py:77 | a `{name}` field becomes str() of its parameter (`Json.Text`: a string itself, an integer its digits), or raises KeyError when the parameter is missing |
| `Endpoints.FormatDependencies` | citelang/main/endpoints.py:130-133 | the dependencies path formats to "/api/<manager>/<package_name>/<version>/dependencies" with str() of each parameter, or the KeyError of the first missing one |
| `Endpoints.FormatPackage` | citelang/main/endpoints.py:142-146 | the package path formats to "/api/<manager>/<package_name>" with str() of each parameter, or the KeyError of the first missing one |
| `Endpoints.FormatPackageStrings` | citelang/main/endpoints.py:142-146 | with string parameters the package path is "/api/" + manager + "/" + package_name, the strings themselves |
| `Endpoints.FormatPlain` | citelang/main/endpoints.py:107-109 | a path without braces formats to itself |
| `Endpoints.PickHolds` | citelang/main/endpoints.py:63-67 | the collected params hold exactly the required names, each with its keyword value |
| `Endpoints.Missing` | citelang/main/endpoints.py:64-66 | the first missing required name: none exactly when all are present |
| `Endpoints.CollectRequired` | citelang/main/endpoints.py:62-67 | the loop exits on the first missing required name, else collects the required names in order |
| `Endpoints.Endpoint.constructor` | citelang/main/endpoints.py:37-42 | an endpoint starts with its class's path template and no params |
| `Endpoints.Endpoint.Url` | citelang/main/endpoints.py:84-86 | `url` is the API root followed by the path |
| `Endpoints.Endpoint.Title` | citelang/main/endpoints.py:88-90 | `title` is the name with "_" as " ", capitalized; for package it is "Package " + params.get("package_name", "") and a non-string name is an error |
| `Endpoints.Endpoint.FormatParams` | citelang/main/endpoints.py:74-78 | with params the path is formatted from them (or the format error); params are stored |
| `Endpoints.Endpoint.RequireParams` | citelang/main/endpoints.py:61-72 | exits if any name in format_url is missing; otherwise params holds exactly those names and the path is formatted from them |
| `Endpoints.NewEndpoint` | citelang/main/endpoints.py:41-53 | `__init__`: require_params checks the required names; otherwise every keyword formats the path |
| `Endpoints.MonthField` | citelang/main/endpoints.py:163-165 | a `%m` field is 1 to 12 |
| `Endpoints.DayField` | citelang/main/endpoints.py:163-165 | a `%d` field is 1 to 31 |
| `Endpoints.ParseDate` | citelang/main/endpoints.py:163-165 | a parsed "%Y-%m-%d" date gives an order-preserving number |
| `Endpoints.SortByDate` | citelang/main/endpoints.py:160-168 | the date sort gives a permutation of the versions; any exception leaves them as they were |
| `Endpoints.SortByDateSorted` | citelang/main/endpoints.py:161-166 | when every version has a date the versions come out sorted by date, ties in their old order |
| `Endpoints.PackageOrderAsWritten` | citelang/main/endpoints.py:154-175 | `Package.order` as written returns a dict or an error |
| `Endpoints.AsWrittenMissingVersions` | citelang/main/endpoints.py:170-173 | as written, every dict without "versions" raises KeyError; on dicts with versions it agrees with the intended order |
| `Endpoints.PackageOrder` | citelang/main/endpoints.py:154-169 | the intended `Package.order` returns a dict or an error |
| `Endpoints.PackageOrderMeans` | citelang/main/endpoints.py:158-168 | a dict without versions comes back unchanged; versions whose first item is a dict never fail; the versions come out as a permutation; every other key is kept |
| `Endpoints.Unique` | citelang/main/endpoints.py:117-126 | the loop leaves as many items as it got and keeps at most that many |
| `Endpoints.UniqueOk` | citelang/main/endpoints.py:119-124 | the loop succeeds exactly when every item has a string name |
| `Endpoints.UniqueDistinct` | citelang/main/endpoints.py:119-126 | the kept items' lower-cased names are new and pairwise distinct |
| `Endpoints.UniqueFrom` | citelang/main/endpoints.py:124-125 | every kept item is an input item with its name capitalized |
| `Endpoints.UniqueCovers` | citelang/main/endpoints.py:119-126 | every input name was already seen or is, lower-cased, the name of a kept item |
| `Endpoints.NameOfRenamed` | citelang/main/endpoints.py:124-126 | renaming capitalizes the name and keeps its lower-cased form |
| `Endpoints.ManagersTableData` | citelang/main/endpoints.py:113-127 | the loop of `table_data` gives the rewritten items and the kept items sorted by name |
| `Endpoints.ManagersTableSorted` | citelang/main/endpoints.py:127 | the table of package_managers is sorted by name and no two names are equal once lower-cased |
| `Endpoints.ManagersTableCovers` | citelang/main/endpoints.py:117-127 | its items are input items with capitalized names, and every input name is in it up to case |
| `Endpoints.TableData` | citelang/main/endpoints.py:138-179 | `table_data` leaves the data of dependencies and package unchanged and reads one key of it |
| `Packages.ParseNameClean` | citelang/main/package.py:92-104 | the parsed name holds no "@" taken from a version suffix, no `[extras]` suffix and no ";" |
| `Packages.ParseNameVersion` | citelang/main/package.py:96-98 | a name with "@" gives the text after the first "@" as version; a name without one keeps the given version |
| `Packages.ParseNameIdempotent` | citelang/main/package.py:92-104 | parsing an already parsed name changes nothing and keeps whatever version is set |
| `Packages.PackageKeyInjective` | citelang/main/package.py:88-90 | two package names of one manager never share a cache name |
| `Packages.KeysDiffer` | citelang/main/package.py:63-90 | the package and dependency cache names of a manager never collide |
| `Packages.LatestOf` | citelang/main/package.py:84-85 | a latest version is only reported when `versions` is a non-empty list, and it is the "number" of its last entry |
| `Packages.LatestRule` | citelang/main/package.py:84-85 | no or empty `versions` leaves the latest unset; a non-empty list yields the last entry's number, or the error its lookup raises |
| `Packages.Package.constructor` | citelang/main/package.py:26-38 | the manager is kept, name and version are those of `parse`, falsy data becomes `{}`, and no latest is known |
| `Packages.Package.Parse` | citelang/main/package.py:92-104 | `parse` sets the normalised name and, with "@", the version; data and latest are untouched |
| `Packages.Package.Info` | citelang/main/package.py:76-86 | `info` records the latest version exactly as `LatestOf` finds it, and fails with its error |
| `Packages.Package.Dependencies` | citelang/main/package.py:56-74 | a given version is used as is; a missing one is replaced by the latest from `info`, whose failure is the call's failure; name and data are untouched |
| `Packages.VersionText` | citelang/main/package.py:61-63 | the version in the cache name is absent exactly when no latest is known or it is None; a string is used as is and an int as its decimal text |
| `Managers.InfoName` | citelang/main/packages/base.py:44-51 | `info` has five fields; its name is the underlying manager when there is one and the manager's own name otherwise |
| `Managers.Field` | citelang/main/packages/base.py:113-141 | a field lookup on a dict succeeds exactly when the key is present and returns its value |
| `Managers.DepData` | citelang/main/packages/base.py:143-159 | a dependency record is a dict with "name" and "project_name" first when it is named |
| `Managers.FetchPackage` | citelang/main/packages/base.py:124-132 | only an exit escapes the fetch; any other failure, a KeyError of the as-written order included, leaves the package missing; a found package was answered by the network |
| `Managers.CacheHit` | citelang/main/packages/base.py:101-118 | a cache entry that the as-written order accepts answers the lookup with the ordered data, without asking the network or writing a mark |
| `Managers.CacheMissingVersions` | citelang/main/packages/base.py:101-118 | a cached non-empty dict without "versions" makes `get_package` raise KeyError("versions") from the cache branch |
| `Managers.FetchMissingVersions` | citelang/main/packages/base.py:124-132 | a network answer that is a dict without "versions" is swallowed: the fetch gives no package |
| `Managers.MarkedNotFetched` | citelang/main/packages/base.py:119-123 | a package marked empty and not cached is answered None without a fetch |
| `Managers.MissMarks` | citelang/main/packages/base.py:133-140 | a lookup that ends without a package marks the name empty when the mark's directory exists; when it does not, the write fails, the error is swallowed and the marks stay as they were; a lookup that finds a package or fails leaves the marks as they were |
| `Managers.LookupErrors` | citelang/main/packages/base.py:101-141 | a lookup fails only on cached data that cannot be ordered or on a fetch that exits |
| `Managers.LookupKeepsData` | citelang/main/packages/base.py:101-141 | a lookup never changes the memory cache, and the cache files only lose a corrupt entry |
| `Managers.NoRetry` | citelang/main/packages/base.py:119-140 | after a lookup found nothing, and the name was already marked or its mark's directory existed, the same lookup answers None at once whatever the network would say |
| `Managers.RetryWithoutFolder` | citelang/main/packages/base.py:119-140 | after a lookup found nothing for an unmarked name whose mark's directory does not exist, no mark was written, so the same lookup asks the network again |
| `Managers.SetMakesManagerFolder` | citelang/main/cache.py:72-74 | caching non-empty data under `package/<manager>/<name>/<version>` creates the directory `package/<manager>`, where the empty mark of any package of that manager is written |
| `Managers.RecordMeans` | citelang/main/packages/npm_packages.py:57-76 | a record succeeds exactly when the version (or the package's latest), publication date and licenses are present, and it carries those values and caches the package under its versioned name |
| `Managers.RecordThenLookup` | citelang/main/packages/npm_packages.py:61-63 | with the memory cache on, a lookup of the recorded name and version afterwards answers from the cache, without the network, what the as-written order gives: the package, or KeyError("versions") when it has none |
| `Managers.FileManager.constructor` | citelang/main/packages/base.py:76-88 | the manager starts unparsed; a given package name is parsed into name and version |
| `Managers.FileManager.SetName` | citelang/main/packages/base.py:90-99 | `set_name` stores the name and version that `Package.parse` gives |
| `Managers.FileManager.GetRepo` | citelang/main/packages/base.py:143-159 | the repository record carries the package name, the current time, the given version or "latest" as both number and default, and no dependencies |
| `Managers.FileManager.GetPackage` | citelang/main/packages/base.py:101-141 | `get_package` returns and leaves the cache exactly as `GetPackageOf` (as-written order) says, whose properties are the lemmas above |
| `Managers.FileManager.Record` | citelang/main/packages/npm_packages.py:57-76 | the shared record tail returns and caches as `RecordOf` says |
| `PackageCache.SetDisabled` | citelang/main/cache.py:43-44 | with `disable_cache == True`, `set` changes nothing |
| `PackageCache.SetMemory` | citelang/main/cache.py:47-70 | with the memory cache on, `set` stores under the name if absent and always for non-empty data, and a versioned name also under its unversioned name |
| `PackageCache.UnversionedShorter` | citelang/main/cache.py:53-55 | a versioned name differs from its unversioned name |
| `PackageCache.Folder` | citelang/main/cache.py:73 | `os.path.dirname` of a cache path: the part of the name before its last "/", or the cache directory itself when the name has none |
| `PackageCache.MakeDirs` | citelang/utils/fileio.py:13-23 | `mkdir_p` leaves the directory, the cache directory and every parent of the directory in place, and removes none |
| `PackageCache.SetSkipsEmpty` | citelang/main/cache.py:63-66 | empty data never reaches the files |
| `PackageCache.SetWrites` | citelang/main/cache.py:57-74 | non-empty data is written to the name's file, no other file changes, and the file's directory exists afterwards |
| `PackageCache.SetKeepsEmpties` | citelang/main/cache.py:39-74 | `set` never touches the empty marks |
| `PackageCache.MarkedStaysEmpty` | citelang/main/cache.py:82-96 | once marked empty a name stays empty across `set` |
| `PackageCache.GetMemoryFirst` | citelang/main/cache.py:105-106 | a name in memory is answered from memory and nothing changes |
| `PackageCache.GetCorrupt` | citelang/main/cache.py:115-120 | a corrupt file is removed and nothing is returned |
| `PackageCache.GetWrapsOnlyFiles` | citelang/main/cache.py:122-123 | only data read from a file is wrapped in a table for an endpoint |
| `PackageCache.SetThenGet` | citelang/main/cache.py:39-125 | non-empty data stored by `set` is what `get` returns next: from memory when it is on, else from its file, wrapped for an endpoint |
| `PackageCache.ClearKeepsMemory` | citelang/main/cache.py:28-37 | `clear` leaves memory as it was and, when forced or confirmed, removes the cache directory with every file, mark and subdirectory in it |
| `PackageCache.Cache.constructor` | citelang/main/cache.py:128-129 | a new cache has an empty memory map over the files, marks and directories earlier runs left |
| `PackageCache.Cache.Set` | citelang/main/cache.py:39-74 | `set` leaves the state `SetStore` gives |
| `PackageCache.Cache.Get` | citelang/main/cache.py:98-125 | `get` returns and leaves the state `GetStore` gives |
| `PackageCache.Cache.MarkEmpty` | citelang/main/cache.py:90-96 | `mark_empty` returns and leaves the state `MarkEmptyStore` gives; afterwards `is_empty` holds exactly when it held before or the mark's directory exists |
| `PackageCache.MarkNeedsFolder` | citelang/utils/fileio.py:26-31 | `write_file` of a mark succeeds exactly when its directory exists; otherwise `open` fails and no mark is added; memory, files and directories never change, nor the mark of any other name |
| `PackageCache.StaysPlaced` | citelang/main/cache.py:28-125 | `set`, `get`, `mark_empty` and `clear` keep every cache file and every mark inside a directory that exists |
| `PackageCache.Cache.Clear` | citelang/main/cache.py:28-37 | `clear` leaves the state `ClearStore` gives |
| `NestedUpdate.Collide` | citelang/utils/string.py:17-22 | two numbers on one key: as written the lookup `data[v]` raises KeyError; as intended the two are added |
| `NestedUpdate.UpdateNested` | citelang/utils/string.py:8-23 | the loop over the update's items ends with what `Merge` gives from the first entry |
| `NestedUpdate.MergeAllOk` | citelang/utils/string.py:12-22 | the merge succeeds when every entry succeeds on the old value at its key |
| `NestedUpdate.MergeKeeps` | citelang/utils/string.py:12-22 | a key the update does not name keeps its value |
| `NestedUpdate.MergeSets` | citelang/utils/string.py:12-22 | each key of the update ends with what its entry computes from the old value there |
| `NestedUpdate.AsWrittenCollisionFails` | citelang/utils/string.py:17-22 | as written, a number merged onto a number makes the whole merge fail |
| `NestedUpdate.AsWrittenExample` | citelang/utils/string.py:17-22 | `{"t": 1}` updated with `{"t": 2}` raises as written and gives `{"t": 3}` as intended |
| `NestedUpdate.MergeIntoEmpty` | citelang/utils/string.py:13-16 | updating `{}` gives a copy of the update |
| `NestedUpdate.TotalPut` | citelang/utils/string.py:14-22 | storing a value at a key replaces the weight of the old value there |
| `NestedUpdate.CountsPut` | citelang/utils/string.py:14-22 | storing a count or a tree of counts keeps a tree of counts |
| `NestedUpdate.EntryAddsCounts` | citelang/utils/string.py:13-22 | as intended, one entry adds exactly its own total to the tree |
| `NestedUpdate.MergeSums` | citelang/utils/string.py:8-23 | as intended, merging a tree of counts into one of the same shape succeeds and the totals add |
| `NestedUpdate.MergeAddsCounts` | citelang/utils/string.py:8-23 | the same from any entry on: no count is lost or counted twice |
| `Blame.CommitMatch` | citelang/main/contrib.py:17-88 | the commit pattern matches exactly a line starting with forty lower-case hex digits, and captures them |
| `Blame.PrefixMatch` | citelang/main/contrib.py:17-88 | a field pattern matches exactly a line starting with its prefix, and captures the rest of the line |
| `Blame.Capture` | citelang/main/contrib.py:85-88 | each of the four fields is overwritten when its pattern matches the line and kept otherwise |
| `Blame.Scan` | citelang/main/contrib.py:83-110 | every record kept has non-blank text and a commit id, the record left unfinished is incomplete, and there are no more records than lines |
| `Blame.BumpTree` | citelang/main/contrib.py:101-108 | counting one more line keeps a tree of counts of the same depth |
| `Blame.BumpCount` | citelang/main/contrib.py:101-108 | one more line adds one at its own path and nothing at any other |
| `Blame.BumpTotal` | citelang/main/contrib.py:101-108 | one more line adds one to the sum of all counts |
| `Blame.PathOf` | citelang/main/contrib.py:101-105 | a line is counted under four keys: author, path, commit, time |
| `Blame.TallyTree` | citelang/main/contrib.py:81-110 | the counts of a file form a tree of depth four |
| `Blame.TallyCount` | citelang/main/contrib.py:81-110 | the count under author, path, commit and time is the number of records with those four |
| `Blame.TallyTotal` | citelang/main/contrib.py:81-110 | the counts sum to the number of records |
| `Blame.MergeTallies` | citelang/main/contrib.py:58-72 | merging one file's counts into another's with `update_nested` as intended keeps every line of both |
| `Blame.ParseBlameOutput` | citelang/main/contrib.py:76-110 | `parse_blame_output` gives the tally of the records the lines produce: a depth-four tree whose count at each path is the number of matching records and whose total is their number |
| `Contrib.Basename` | citelang/main/contrib.py:252 | `os.path.basename` is the suffix of the path after its last "/" and holds no "/" |
| `Contrib.TimesRaws` | citelang/main/contrib.py:258-261 | the times loop of a commit reads at most one record per time key, each on this path |
| `Contrib.TimesRawsStop` | citelang/main/contrib.py:258-261 | the times loop stops exactly when some time key fails `int()`, and otherwise reads one record per key |
| `Contrib.TimesRawsRead` | citelang/main/contrib.py:258-261 | each record read comes from the key at its place, in order, with the time `int()` parsed from it and that key's count |
| `Contrib.CommitsRaws` | citelang/main/contrib.py:257-261 | every record read from a path's commits carries that path |
| `Contrib.PathsRaws` | citelang/main/contrib.py:248-255 | ignored paths and basenames are skipped before their commits are read; every record comes from a path of the entry |
| `Contrib.EntryRaws` | citelang/main/contrib.py:248-255 | no record of an author entry lies on an ignored path |
| `Contrib.Scan` | citelang/main/contrib.py:258-295 | the records of one author entry yield at most one item each |
| `Contrib.Project` | citelang/main/contrib.py:295 | the items are those of the yields, in order |
| `Contrib.ScanFresh` | citelang/main/contrib.py:262-265 | the records of an entry are yielded under uids new to the seen set, pairwise distinct |
| `Contrib.HistoryFresh` | citelang/main/contrib.py:245-265 | the whole walk yields under fresh, distinct uids |
| `Contrib.YieldsDistinct` | citelang/main/contrib.py:260-265 | each contribution (commit, author, path, time) is yielded at most once, also when an error stops the generator |
| `Contrib.ScanPasses` | citelang/main/contrib.py:267-293 | every item an entry yields is in the time window, under the alias of its author, and neither name is ignored nor the alias a bot |
| `Contrib.HistoryPasses` | citelang/main/contrib.py:246-295 | the same for the whole walk |
| `Contrib.YieldsPass` | citelang/main/contrib.py:238-295 | every item `iter_items` yields, before an error as well, passes the path, time and author filters |
| `Contrib.IntendedScan` | citelang/main/contrib.py:282-293 | as intended, every record of an entry is marked under the entry's own author and yielded under its alias, and that author is not ignored |
| `Contrib.AsWrittenLeak` | citelang/main/contrib.py:282-293 | as written, with `authors: {a: b}` and `ignore_users: [a]`, the second record of author a is yielded under b |
| `Contrib.ScanEntry` | citelang/main/contrib.py:258-295 | the innermost loop ends in the state and yields `Scan` gives |
| `Contrib.ScanAuthors` | citelang/main/contrib.py:247-295 | the loop over the author entries of a commit gives what `Authors` gives: the yields so far and the error that stopped it, if any |
| `Contrib.IterItems` | citelang/main/contrib.py:232-295 | `iter_items` yields the items of the walk in order up to the error that stops it, if any; `list()` of it is those items, or that error |
| `ContribSummary.Totals` | citelang/main/contrib.py:309-333 | the totals have distinct keys and numeric values, or fail with the TypeError of `+=` |
| `ContribSummary.TotalsOk` | citelang/main/contrib.py:309-333 | the totals fail exactly when some count is not a number |
| `ContribSummary.TotalsKeys` | citelang/main/contrib.py:309-333 | the totals hold every key of the items and no other |
| `ContribSummary.TotalsSum` | citelang/main/contrib.py:309-333 | the total under a key is the sum of the counts of its items |
| `ContribSummary.DetailsKeys` | citelang/main/contrib.py:304-328 | the detail keys are exactly the keys of the items |
| `ContribSummary.DetailsLast` | citelang/main/contrib.py:304-328 | the count under a key and a detail is that of the last item with both, not a sum |
| `ContribSummary.DetailsShaped` | citelang/main/contrib.py:304-328 | with numeric counts every detail entry is a dict of numbers keyed once each |
| `ContribSummary.SortByCount` | citelang/main/contrib.py:347-356 | `sorted(..., key=item[1], reverse=True)` permutes the entries and always succeeds on numbers |
| `ContribSummary.SortByCountMeans` | citelang/main/contrib.py:354-356 | sorting totals keeps the entries, orders them from the largest count, keeps ties in order and keys distinct |
| `ContribSummary.CountRows` | citelang/main/contrib.py:359-360 | one name/count row per sorted entry, in order |
| `ContribSummary.TotalsList` | citelang/main/contrib.py:352-360 | `_to_list(totals, False)` succeeds on numbers with one row per key |
| `ContribSummary.DetailsList` | citelang/main/contrib.py:344-351 | `_to_list(details, True)` gives one row per key when it succeeds |
| `ContribSummary.DetailsListErr` | citelang/main/contrib.py:344-351 | the first failing entry decides the error |
| `ContribSummary.Ranked` | citelang/main/contrib.py:309-356 | the ranked totals are a permutation of the totals |
| `ContribSummary.TotalsSummary` | citelang/main/contrib.py:297-360 | `by_file(False)`/`by_author(False)`: one row per key of the items, no key twice, each with the sum of its counts, ordered from the largest sum with ties in first-seen order |
| `ContribSummary.DetailsListRows` | citelang/main/contrib.py:344-351 | on shaped details `_to_list` gives one row per key, in order, its inner dict sorted by count |
| `ContribSummary.DetailsSummary` | citelang/main/contrib.py:297-351 | `by_file(True)`/`by_author(True)`: one row per key in first-seen order, holding for each detail the count of its last item, sorted from the largest |
| `ContribSummary.ToList` | citelang/main/contrib.py:340-361 | the loops of `_to_list` give `ToListOf` |
| `ContribSummary.Summarize` | citelang/main/contrib.py:297-338 | the loop body runs after each yielded item: without detail a `+=` on a count that is not a number raises before the generator's later error; otherwise the generator's error ends it, and a generator that ran to its end gives `SummaryOf` |
| `ContribSummary.CollectDetails` | citelang/main/contrib.py:304-328 | the detail loop gives `Details` |
| `ContribSummary.CollectTotals` | citelang/main/contrib.py:309-333 | the total loop gives `Totals` |
| `ContribSummary.ByFileSummary` | citelang/main/contrib.py:297-316 | `by_file` sums while `iter_items` runs, as `ContributionsBy` says; what that means is `ContributionsByMeans` |
| `ContribSummary.ByAuthorSummary` | citelang/main/contrib.py:318-338 | `by_author` sums while `iter_items` runs, as `ContributionsBy` says; what that means is `ContributionsByMeans` |
| `ContribSummary.ContributionsByMeans` | citelang/main/contrib.py:297-338 | without detail, a count that is not a number among the items yielded before the generator stops raises the TypeError of `+=`, ahead of the generator's own error; otherwise that error ends the summary; a generator that runs to its end gives the summary of all its items |
| `ContribSummary.TotalsOfOne` | citelang/main/contrib.py:309-316 | a single item whose count is not a number makes the totals raise the TypeError of `+=` |
| `ContribSummary.SumFailsBeforeWalk` | citelang/main/contrib.py:297-316 | a history whose first record counts "n" and whose next path holds a number: `list(iter_items())` raises the AttributeError of `.items()`, but `by_file(False)` raises the TypeError of `+=` first |
| `MarkdownParser.WordEnd` | citelang/main/parser.py:18 | the greedy `[a-zA-Z0-9]+` run from a position ends at the first character that is not an ASCII letter or digit |
| `MarkdownParser.CloseAt` | citelang/main/parser.py:18 | the lazy `(.*?)\}` stops at the first "}", and fails when a newline comes before every "}" |
| `MarkdownParser.CiteAt` | citelang/main/parser.py:18 | a match at the start of the text is `@word{text}` with a word of letters and digits and a text without "}" or newline |
| `MarkdownParser.CiteAtMatches` | citelang/main/parser.py:18 | a citation written out is matched whatever follows it |
| `MarkdownParser.FindAllShape` | citelang/main/parser.py:64 | every match of `findall` holds a citation word and a brace text |
| `MarkdownParser.FindAllSkip` | citelang/main/parser.py:64 | text without "@" before the rest adds no match |
| `MarkdownParser.FindAllNone` | citelang/main/parser.py:64 | text without "@" has no match |
| `MarkdownParser.FindAllFirst` | citelang/main/parser.py:64 | the first citation is the first match, and the search resumes after it |
| `MarkdownParser.Pairs` | citelang/main/parser.py:70-74 | at most one pair per comma-separated piece |
| `MarkdownParser.PairsMeans` | citelang/main/parser.py:70-74 | each pair comes from a piece that, stripped, is its key, "=", its value and no other "=" |
| `MarkdownParser.PairOf` | citelang/main/parser.py:70-74 | a piece with exactly one "=" gives its pair |
| `MarkdownParser.AssignGet` | citelang/main/parser.py:70-75 | a key of the record reads as its last pair, or what the dict held before; keys stay distinct |
| `MarkdownParser.RecordGet` | citelang/main/parser.py:70-75 | a record holds "manager" and each key of a two-part piece once; "manager" is the citation word unless a "manager=" pair overrides it |
| `MarkdownParser.Group` | citelang/main/parser.py:87-88 | one row per package of a manager, in order |
| `MarkdownParser.ListingMeans` | citelang/main/parser.py:85-88 | the listing has one row per package of the data, and every row is a package of the data with its credit and url |
| `MarkdownParser.SortedMeans` | citelang/main/parser.py:90 | the sorted listing is a permutation ordered by credit from the largest, stable among equal credits |
| `MarkdownParser.NameCell` | citelang/main/parser.py:96-97 | the name cell is a Markdown link exactly when the url is non-empty |
| `MarkdownParser.Lines` | citelang/main/parser.py:91-102 | no more table lines than rows |
| `MarkdownParser.SplitText` | citelang/main/parser.py:98-114 | splitting the built table at newlines gives its lines back and an empty last piece |
| `MarkdownParser.TableLines` | citelang/main/parser.py:82-102 | the table is the header, the rule and one line per kept row |
| `MarkdownParser.Kept` | citelang/main/parser.py:92-95 | no more kept rows than rows |
| `MarkdownParser.LinesMeans` | citelang/main/parser.py:91-102 | one line per row whose rounded credit is not 0, in order, showing its manager, name cell and rounded credit |
| `MarkdownParser.AfterBlock` | citelang/main/parser.py:108-110 | skipping a block never adds lines |
| `MarkdownParser.RewriteNoBlock` | citelang/main/parser.py:106-118 | lines without a start marker are kept as they are |
| `MarkdownParser.AfterBlockSkips` | citelang/main/parser.py:109-110 | the inner loop stops at the first line with the end marker |
| `MarkdownParser.RewriteBlock` | citelang/main/parser.py:106-118 | the lines before the first block stay, the block becomes the table, the rest is rewritten on its own |
| `MarkdownParser.RewriteUnclosed` | citelang/main/parser.py:109-110 | a start marker with no end marker after it raises IndexError from `pop(0)` |
| `MarkdownParser.RenderNoBlock` | citelang/main/parser.py:78-119 | a document without a start marker renders as itself |
| `MarkdownParser.RenderOneBlock` | citelang/main/parser.py:78-119 | a document with one block renders as the lines before it, the start marker, header, rule, one line per kept row, an empty line, the note, the end marker and the lines after it |
| `MarkdownParser.Parser.constructor` | citelang/main/parser.py:27-33 | a new parser holds the content, no data and rounds to 3 places |
| `MarkdownParser.Parser.Check` | citelang/main/parser.py:43-56 | `check` passes exactly when both markers occur, and reports the start marker's absence first |
| `MarkdownParser.Parser.Parse` | citelang/main/parser.py:58-76 | `parse` fails exactly as `check` does, and otherwise gives one record per match, element by element |
| `MarkdownParser.Parser.Render` | citelang/main/parser.py:78-119 | `render` gives `RenderOf`, whose shape the lemmas above state |
| `MarkdownParser.Collect` | citelang/main/parser.py:85-88 | the collecting loop gives `Listing` |
| `MarkdownParser.CollectGroup` | citelang/main/parser.py:87-88 | the inner loop gives `Group` |
| `MarkdownParser.Tabulate` | citelang/main/parser.py:82-102 | the table loop gives `Markdown` |
| `MarkdownParser.Splice` | citelang/main/parser.py:104-118 | the `while lines:` loop gives `Rewrite` |
| `Badge.UnwrapMeans` | citelang/main/badge/__init__.py:73-86 | label i is the name of the i-th node in preorder and parent i the name of its parent, "" for the root; one weight per node |
| `Badge.ParentsNamed` | citelang/main/badge/__init__.py:82-85 | every parent name is the name of a node of the tree |
| `Badge.Sunburst.constructor` | citelang/main/badge/__init__.py:77-79 | the outermost call starts from no labels, the root's parent "" and no values |
| `Badge.Sunburst.Unwrap` | citelang/main/badge/__init__.py:80-85 | a call appends the subtree's labels, parents and values to the shared lists |
| `Badge.UnwrapTree` | citelang/main/badge/__init__.py:73-86 | `unwrap_tree` returns three lists of one length: the preorder labels, "" then the parents, the weights |
| `Badge.Ids` | citelang/main/badge/__init__.py:63 | the ids are the decimal texts of 0 to n-1 |
| `Badge.Positions` | citelang/main/badge/__init__.py:66 | the label map holds exactly the labels, each at its last position |
| `Badge.Lookups` | citelang/main/badge/__init__.py:69 | one parent id per looked-up label |
| `Badge.GetIds` | citelang/main/badge/__init__.py:59-62 | lists of different lengths exit with the source's message |
| `Badge.LookupsMeans` | citelang/main/badge/__init__.py:66-69 | the lookups succeed exactly when every label is known, each giving the id of its last position; otherwise a KeyError names an unknown label |
| `Badge.GetIdsMeans` | citelang/main/badge/__init__.py:55-70 | ids are "0".."n-1"; the root's parent id is "" and each other parent id is that of the last node with the parent's label; it fails exactly on an unknown label |
| `Badge.UnwrapHasIds` | citelang/main/badge/__init__.py:55-86 | the lists `unwrap_tree` makes always get ids |
| `Settings.ValidMeans` | citelang/main/schemas.py:19-36 | valid settings hold a string `cache_dir`, boolean `disable_cache` and `disable_memory_cache`, and no other key |
| `Settings.Validation` | citelang/main/settings.py:221-231 | `change_validate` passes exactly on valid settings and exits otherwise |
| `Settings.Validated` | citelang/main/settings.py:219-231 | an edit is kept exactly when the edited settings are valid, and exits otherwise |
| `Settings.ParseBoolean` | citelang/main/settings.py:175-183 | a string equal to "true" or "false" in any case becomes that boolean; any other value is unchanged |
| `Settings.ParseNull` | citelang/main/settings.py:185-195 | "none" or "null" in any case becomes None, other strings are stripped, other values unchanged |
| `Settings.ParsedStays` | citelang/main/settings.py:175-195 | parsing a boolean twice is parsing it once, and a parsed string is already stripped |
| `Settings.SubstituteAbsent` | citelang/main/settings.py:244-248 | a string holding no placeholder is unchanged |
| `Settings.SubstitutionsMeans` | citelang/main/settings.py:233-250 | booleans, falsy values and dicts are returned as they are; strings and lists of strings are substituted; a truthy number raises on `replace` |
| `Settings.SubstituteEachMeans` | citelang/main/settings.py:245-246 | a list is substituted exactly when all its elements are strings, element by element |
| `Settings.Pair` | citelang/main/settings.py:209-210 | the two-name unpacking of `split(":")` succeeds exactly with one ":" and gives the text around it |
| `Settings.ExpandEach` | citelang/main/settings.py:125-126 | one expanded element per element |
| `Settings.ReadPlain` | citelang/main/settings.py:112-129 | a plain key reads its value, or the default, substituted; only the allowed keys are expanded |
| `Settings.IndexOf` | citelang/main/settings.py:168 | `index` gives the first position of the value |
| `Settings.RemoveFirst` | citelang/main/settings.py:168 | `pop(index(x))` removes the first occurrence only and keeps the others in order |
| `Settings.DeleteOf` | citelang/main/settings.py:252-254 | after `delete` the key is absent and every other key reads as before |
| `Settings.ValidGet` | citelang/main/schemas.py:19-23 | a key of valid settings holds a value of its schema type, never a list |
| `Settings.ListEditsExit` | citelang/main/settings.py:137-173 | under the schema an `add` that succeeds changes nothing and a `remove` always exits |
| `Settings.EditsValid` | citelang/main/settings.py:137-231 | every edit that succeeds on valid settings leaves them valid |
| `Settings.AddToList` | citelang/main/settings.py:141-153 | `add` on a list puts an absent value first and leaves a present one alone |
| `Settings.RemoveEditWhen` | citelang/main/settings.py:163-167 | `remove` edits only a list holding the value, and exits otherwise |
| `Settings.RemoveEditMeans` | citelang/main/settings.py:168-169 | the edited list loses the first occurrence of the value only, and no other key changes |
| `Settings.SetThenRead` | citelang/main/settings.py:197-219 | a plain `set` stores the parsed value and `get` reads back its substitution |
| `Settings.UpdateParamIgnores` | citelang/main/settings.py:297-312 | a param without ":" or an unknown command changes nothing |
| `Settings.RmRemoves` | citelang/main/settings.py:297-312 | the corrected half: "rm" removes the value from the key's list, exactly as "remove" does |
| `Settings.AsWrittenIgnoresRm` | citelang/main/settings.py:304-312 | as written `rm:key:value` changes nothing, where the intended dispatch removes; other commands agree |
| `Settings.AsWrittenNoSkip` | citelang/main/settings.py:286-291 | as written the param "cache_dir", reported as skipped, ends the update with a ValueError |
| `Settings.ParamsSkipMalformed` | citelang/main/settings.py:286-289 | the corrected half: as intended, params that fail the check change nothing |
| `Settings.ParamsAppend` | citelang/main/settings.py:285-291 | the corrected half: applying two lists of params one after the other is applying them together |
| `Settings.UpdateParamKeepsValid` | citelang/main/settings.py:293-312 | the corrected half: one intended update that succeeds on valid settings leaves them valid |
| `Settings.ParamsKeepValid` | citelang/main/settings.py:271-291 | the corrected half: every successful run of the intended updates keeps valid settings valid |
| `Settings.ParamsAsWrittenAppend` | citelang/main/settings.py:285-291 | as written, applying two lists of params one after the other is applying them together, and a failure in the first ends the run |
| `Settings.UpdateParamAsWrittenKeepsValid` | citelang/main/settings.py:293-312 | as written, one update that succeeds on valid settings leaves them valid |
| `Settings.ParamsAsWrittenKeepValid` | citelang/main/settings.py:271-291 | as written, every successful run of the updates keeps valid settings valid |
| `Settings.ParamsAsWrittenColonless` | citelang/main/settings.py:285-291 | as written, a param without ":" after params that succeed ends the whole run with the ValueError of the unpacking, whatever follows |
| `Settings.SettingsFile` | citelang/main/settings.py:75-90 | with `env_settings_file` defined: the environment's file if set and present, else the user's if present, else the default |
| `Settings.ChooseSettingsFile` | citelang/main/settings.py:75-90 | `get_settings_file` raises AttributeError exactly when `citelang.defaults` lacks `env_settings_file`; otherwise it picks the environment's, the user's or the default file |
| `Settings.ShippedDefaultsRaise` | citelang/main/settings.py:81 | with `citelang/defaults.py` as shipped, which defines no `env_settings_file`, `get_settings_file` and so `load` raise AttributeError whatever files exist |
| `Settings.UpdateGet` | citelang/main/settings.py:110 | after `dict.update` a key reads as in the other dict if it is there, else as before |
| `Settings.LoadMeans` | citelang/main/settings.py:92-110 | with `env_settings_file` defined, loading succeeds exactly when the chosen file exists, and the loaded settings take each key of that file and the defaults' keys it lacks |
| `Settings.SettingsStore.constructor` | citelang/main/settings.py:20-28 | before loading there is no file and no setting |
| `Settings.SettingsStore.Load` | citelang/main/settings.py:92-110 | without `env_settings_file`, `load` raises AttributeError and changes nothing; otherwise it picks the file `SettingsFile` gives and holds what `LoadOf` gives, validated when asked |
| `Settings.SettingsStore.Set` | citelang/main/settings.py:197-219 | `set` writes the edit first and validates after, as `SetEdit` and `SetOf` say |
| `Settings.SettingsStore.Add` | citelang/main/settings.py:137-157 | `add` writes and validates as `AddEdit` and `AddOf` say |
| `Settings.SettingsStore.Remove` | citelang/main/settings.py:159-173 | `remove` writes and validates as `RemoveEdit` and `RemoveOf` say |
| `Settings.SettingsStore.Delete` | citelang/main/settings.py:252-254 | `delete` leaves `DeleteOf` |
| `Settings.SettingsStore.UpdateParam` | citelang/main/settings.py:293-312 | `update_param` as written: the settings and the result are those `UpdateParamAsWrittenOf` gives, so "rm" changes nothing; the file is kept |
| `Settings.SettingsStore.UpdateParams` | citelang/main/settings.py:271-291 | `update_params` as written: params in order as `ParamsAsWritten` says, a param without ":" ending the run with ValueError |
| `CMakeList.AfterParen` | citelang/main/packages/cpp_cmakelist.py:37-58 | `line.split("(")[1]` fails exactly when the line holds no "(" |
| `CMakeList.CMakeLib` | citelang/main/packages/cpp_cmakelist.py:45 | the entry is "cmake@" followed by the version |
| `CMakeList.LineEffect` | citelang/main/packages/cpp_cmakelist.py:33-58 | one line adds at most one library, never an empty one |
| `CMakeList.DepsOf` | citelang/main/packages/cpp_cmakelist.py:60-78 | one record per library, in order |
| `CMakeList.ScanStep` | citelang/main/packages/cpp_cmakelist.py:32-58 | the scan applies one line's effect, then goes on with the rest |
| `CMakeList.ScanPrefix` | citelang/main/packages/cpp_cmakelist.py:30-41 | libraries found earlier stay in front of those the lines add |
| `CMakeList.ScanKeeps` | citelang/main/packages/cpp_cmakelist.py:36-58 | no library found is empty, and no line changes the default version |
| `CMakeList.ScanAppend` | citelang/main/packages/cpp_cmakelist.py:32-58 | scanning two blocks of lines is scanning the first and continuing with the second |
| `CMakeList.FindPackageNeedsParen` | citelang/main/packages/cpp_cmakelist.py:36-37 | a `find_package` line without "(" raises IndexError |
| `CMakeList.FindPackageFirst` | citelang/main/packages/cpp_cmakelist.py:36-57 | a line with both "find_package" and "project" is a `find_package` line and leaves the project name |
| `CMakeList.CMakeEntry` | citelang/main/packages/cpp_cmakelist.py:43-77 | `cmake_minimum_required(VERSION v)` becomes a "Cpp" dependency on "cmake" at v without a license |
| `CMakeList.DepsMeans` | citelang/main/packages/cpp_cmakelist.py:60-78 | every record is "Cpp", without a license, published with the repository, named by the text before "@" and versioned by the text after it |
| `CMakeList.ParseMeans` | citelang/main/packages/cpp_cmakelist.py:24-83 | the parse stores the scanned libraries' records, in order, as the dependencies and keeps `get_repo`'s default version |
| `CMakeList.ScanLines` | citelang/main/packages/cpp_cmakelist.py:32-58 | the first loop gives `Scan` |
| `CMakeList.Records` | citelang/main/packages/cpp_cmakelist.py:60-78 | the second loop gives `DepsOf` |
| `CMakeList.Parse` | citelang/main/packages/cpp_cmakelist.py:24-83 | `parse` returns `ParseOf` on the record `get_repo` gave and stores it as the package data |
| `GoMod.Entries` | citelang/main/packages/go_mod.py:35-40 | one entry per line of the block: the line stripped and cut at its first "//" |
| `GoMod.NameVersion` | citelang/main/packages/go_mod.py:44-46 | an entry with a space is its module, a space and its version; one without is the module alone |
| `GoMod.Lookup` | citelang/main/packages/go_mod.py:49-53 | the bare `except` turns every failure of `get_package` (as-written order), exits and KeyError included, into a missing package, and keeps what the lookup did to the cache |
| `GoMod.CollectOutside` | citelang/main/packages/go_mod.py:29-32 | outside a block, lines without "require (" are skipped |
| `GoMod.CollectTakes` | citelang/main/packages/go_mod.py:35-40 | inside a block, a line that neither opens nor closes one is collected |
| `GoMod.CollectEnds` | citelang/main/packages/go_mod.py:33-34 | inside a block, a line with ")" ends the loop |
| `GoMod.CollectBlock` | citelang/main/packages/go_mod.py:29-40 | every line up to the closing ")" is collected, and nothing after it |
| `GoMod.RequireBlock` | citelang/main/packages/go_mod.py:27-40 | a file with one `require (` block yields exactly its entries, in order |
| `GoMod.CollectClean` | citelang/main/packages/go_mod.py:36-40 | every entry is stripped and holds no comment |
| `GoMod.StepMeans` | citelang/main/packages/go_mod.py:55-89 | a record is named by its module and is "Go" or "Unknown" |
| `GoMod.StepUnknown` | citelang/main/packages/go_mod.py:55-67 | a module the lookup does not know, or whose lookup fails, is recorded as unknown with its line's version |
| `GoMod.StepFound` | citelang/main/packages/go_mod.py:69-89 | as intended, a found package gives a "Go" record of its latest publication date and licenses |
| `GoMod.DepsNames` | citelang/main/packages/go_mod.py:42-89 | one dependency per entry, named by its module, in order |
| `GoMod.DepsSources` | citelang/main/packages/go_mod.py:42-89 | every record is "Go" or "Unknown"; the loop fails only on a found package without the fields of a record |
| `GoMod.AsWrittenOnlyUnknown` | citelang/main/packages/go_mod.py:69-83 | as written, a parse that succeeds found no package: every record is "Unknown" |
| `GoMod.AsWrittenParseUnknown` | citelang/main/packages/go_mod.py:21-94 | as written, a successful parse records every module of the file as unknown, in order |
| `GoMod.AsWrittenFirstFound` | citelang/main/packages/go_mod.py:71-83 | as written, a first module the lookup finds ends the parse with a NameError on `dep` |
| `GoMod.CollectLines` | citelang/main/packages/go_mod.py:27-40 | the first loop gives `Collect` |
| `GoMod.TurnAsWritten` | citelang/main/packages/go_mod.py:43-89 | one turn as written: unknown modules are recorded, a found one is cached when its version is given and then reading `dep.data` fails |
| `GoMod.ParseAsWritten` | citelang/main/packages/go_mod.py:21-94 | `parse` as written returns and caches as `ParseAsWrittenOf` says, its lookups through the as-written order |
| `GoMod.Parse` | citelang/main/packages/go_mod.py:21-94 | `parse` with the intended record of a found package returns and caches as `ParseOf` says, its lookups through the as-written order, and stores the record as the package data |
| `Cran.Entries` | citelang/main/packages/cran_description.py:36-37 | one entry per collected line: the line without commas, stripped |
| `Cran.CollectBefore` | citelang/main/packages/cran_description.py:32-39 | before the "Imports:" line, lines are skipped |
| `Cran.CollectStarts` | citelang/main/packages/cran_description.py:38-39 | the "Imports:" line starts the parsing and is not itself collected |
| `Cran.CollectTakes` | citelang/main/packages/cran_description.py:36-37 | while parsing, a line starting with a space is collected |
| `Cran.CollectEnds` | citelang/main/packages/cran_description.py:34-35 | while parsing, the end of the file or a line not starting with a space ends the loop |
| `Cran.CollectBlock` | citelang/main/packages/cran_description.py:32-39 | the indented lines are collected up to the first one that is not, and nothing after it |
| `Cran.ImportsBlock` | citelang/main/packages/cran_description.py:30-39 | a DESCRIPTION file yields exactly the entries of the indented lines after its first "Imports:" line, in order |
| `Cran.EntryClean` | citelang/main/packages/cran_description.py:37 | an entry holds no comma and is stripped |
| `Cran.NameVersionMeans` | citelang/main/packages/cran_description.py:45-51 | an import without `==`, `<=` or `>=` is a bare name; with one, a stripped name and version without operators; a second operator is a ValueError |
| `Cran.StepMeans` | citelang/main/packages/cran_description.py:42-83 | a turn adds a "Cran" record named by the import, never for an empty name |
| `Cran.StepSkips` | citelang/main/packages/cran_description.py:53-61 | an empty name is skipped without a lookup; a package the lookup does not find is skipped after it |
| `Cran.DepsMeans` | citelang/main/packages/cran_description.py:41-83 | at most one record per import, each a named "Cran" record |
| `Cran.DepsAppend` | citelang/main/packages/cran_description.py:42-83 | the records keep the order of the imports |
| `Cran.CollectLines` | citelang/main/packages/cran_description.py:30-39 | the first loop gives `Collect` |
| `Cran.Parse` | citelang/main/packages/cran_description.py:24-88 | `parse` returns and caches as `ParseOf` says, its lookups through the as-written order, and stores the record as the package data |
| `Gemfile.Alternatives` | citelang/main/packages/ruby_gem.py:32-40 | none of the removed texts, separators or operators is empty |
| `Gemfile.RemoveAllClean` | citelang/main/packages/ruby_gem.py:32-33 | after the removals no quote, double quote or comma is left |
| `Gemfile.CutAllMeans` | citelang/main/packages/ruby_gem.py:35-36 | the cuts keep a prefix of the line holding none of the option markers |
| `Gemfile.EntryClean` | citelang/main/packages/ruby_gem.py:30-42 | an entry holds no quote, double quote, comma or option marker |
| `Gemfile.EntryUsed` | citelang/main/packages/ruby_gem.py:30-31 | a line is used exactly when, stripped, it starts with "gem" and does not mention "source" |
| `Gemfile.PinRoundTrip` | citelang/main/packages/ruby_gem.py:39-48 | a pinned entry gives back the stripped name and version around the operator |
| `Gemfile.CollectClean` | citelang/main/packages/ruby_gem.py:29-42 | every entry of the scan is clean |
| `Gemfile.NameVersionMeans` | citelang/main/packages/ruby_gem.py:46-50 | an entry is cut at its first "@", else at its first space, else it is a bare name |
| `Gemfile.StepMeans` | citelang/main/packages/ruby_gem.py:45-76 | a turn adds a "Rubygems" record named by the entry |
| `Gemfile.DepsMeans` | citelang/main/packages/ruby_gem.py:44-76 | at most one "Rubygems" record per entry |
| `Gemfile.RemoveEach` | citelang/main/packages/ruby_gem.py:32-33 | the removal loop gives `RemoveAll` |
| `Gemfile.CutEach` | citelang/main/packages/ruby_gem.py:35-36 | the cut loop gives `CutAll` |
| `Gemfile.EntryLine` | citelang/main/packages/ruby_gem.py:30-42 | one turn of the first loop gives `Entry` |
| `Gemfile.CollectLines` | citelang/main/packages/ruby_gem.py:29-42 | the first loop gives `Collect` |
| `Gemfile.Parse` | citelang/main/packages/ruby_gem.py:22-81 | `parse` returns and caches as `ParseOf` says, its lookups through the as-written order, and stores the record as the package data |
| `PythonDeps.Alternatives` | citelang/main/packages/python_base.py:43-46 | none of the operators is empty |
| `PythonDeps.CloseFrom` | citelang/main/packages/python_base.py:55 | the greedy `.+\]` reaches the last "]" before the next newline |
| `PythonDeps.VariantEnd` | citelang/main/packages/python_base.py:55 | a match of `\[.+\]` from a "[" ends at the last "]" at least two places on before a newline |
| `PythonDeps.CopyRest` | citelang/main/packages/python_base.py:55 | without a "]" ahead nothing is removed |
| `PythonDeps.VariantsGreedy` | citelang/main/packages/python_base.py:55 | on a one-line name, the first "[" and the last "]" two or more places after it delimit what is removed |
| `PythonDeps.VariantsKeep` | citelang/main/packages/python_base.py:55 | a name where no "]" follows a "[" by two or more places is unchanged |
| `PythonDeps.VariantsKeepChar` | citelang/main/packages/python_base.py:55 | removing variants adds no character |
| `PythonDeps.AsWrittenDiffers` | citelang/main/packages/python_base.py:28-30 | the as-written and intended tests differ only on lines holding "-e" without starting with it |
| `PythonDeps.AsWrittenDropsEngineio` | citelang/main/packages/python_base.py:29 | as written, "python-engineio==4.3.1" is skipped though it is no local install |
| `PythonDeps.CommentCheckDead` | citelang/main/packages/python_base.py:31-35 | after the cut at "#", the stripped line never starts with "#", so the comment check never skips |
| `PythonDeps.EntrySkips` | citelang/main/packages/python_base.py:28-39 | local installs, blank lines after the cut and "git@" references are skipped |
| `PythonDeps.EntryBare` | citelang/main/packages/python_base.py:41-55 | a line without an operator is looked up by its stripped name, variants removed, without a version |
| `PythonDeps.EntryPinned` | citelang/main/packages/python_base.py:43-48 | a line with an operator gives the stripped texts around it as name and version, neither holding an operator or "#" |
| `PythonDeps.EntryUncommented` | citelang/main/packages/python_base.py:31 | names and versions hold no "#" |
| `PythonDeps.KeptUncommented` | citelang/main/packages/python_base.py:31-55 | the same after the local-install test |
| `PythonDeps.StepMeans` | citelang/main/packages/python_base.py:57-83 | under either test, the as-written "-e" anywhere or the intended one, a turn adds a "Pypi" record named by the line, cached under its name and version; a skipped line changes nothing |
| `PythonDeps.AskedBy` | citelang/main/packages/python_base.py:26-55 | a line asks for at most one name |
| `PythonDeps.StepNamed` | citelang/main/packages/python_base.py:58-83 | a record is named after what its line asks for |
| `PythonDeps.DepsShift` | citelang/main/packages/python_base.py:25-84 | records found earlier stay in front; the loop only appends |
| `PythonDeps.DepsOrder` | citelang/main/packages/python_base.py:25-84 | under either test, as written included, the record names are the names the lines ask for, in order, with missing packages left out; every record is "Pypi" |
| `PythonDeps.DepsAgree` | citelang/main/packages/python_base.py:25-84 | on lines none of which holds "-e" the as-written loop and the intended one give the same records and the same store |
| `PythonDeps.ReadLine` | citelang/main/packages/python_base.py:28-55 | the loop body as written: "-e" anywhere skips the line, then the filters and the split give `EntryAsWritten` |
| `PythonDeps.ParseDeps` | citelang/main/packages/python_base.py:19-84 | `parse_python_deps` as written returns and caches as `Deps` under the as-written test says |
| `Requirements.Alternatives` | citelang/main/packages/pypi_requirements.py:77-78 | none of the operators is empty |
| `Requirements.PypiPackage` | citelang/main/packages/pypi_requirements.py:81-83 | the package endpoint answers the as-written order of the fetched dict, so KeyError("versions") for one without versions, and the fetch errors escape unchanged |
| `Requirements.PypiRecord` | citelang/main/packages/pypi_requirements.py:85-98 | a record carries no name and the source "Pypi" |
| `Requirements.EntrySkips` | citelang/main/packages/pypi_requirements.py:72-76 | exactly blank lines and "git@" references are skipped; a line without an operator, a comment too, is looked up stripped and without a version |
| `Requirements.EntrySplit` | citelang/main/packages/pypi_requirements.py:76-78 | a line with an operator is cut around its only operator, and a second one is a ValueError |
| `Requirements.RecordMeans` | citelang/main/packages/pypi_requirements.py:85-98 | a record carries the given version or else the latest one, and the package's date and licenses, and fails exactly when one of those fields is missing |
| `Requirements.Asking` | citelang/main/packages/pypi_requirements.py:69-73 | no more lines ask for a package than there are lines |
| `Requirements.StepAdds` | citelang/main/packages/pypi_requirements.py:69-99 | a successful turn adds one record exactly when its line asks for a package |
| `Requirements.DepsCount` | citelang/main/packages/pypi_requirements.py:68-99 | a successful parse holds one record per line that asks for one, in order; no package is skipped |
| `Requirements.ParseMeans` | citelang/main/packages/pypi_requirements.py:55-104 | the record has the manager's name and one version numbered by its version or "latest", also the default |
| `Requirements.RequirementsManager.constructor` | citelang/main/packages/pypi_requirements.py:27-35 | the manager holds the normalised name and version and has not parsed yet |
| `Requirements.RequirementsManager.SetName` | citelang/main/packages/pypi_requirements.py:38-47 | `set_name` stores the name and version that `Package.parse` gives |
| `Requirements.RequirementsManager.Parse` | citelang/main/packages/pypi_requirements.py:49-104 | `parse` returns `ParseOf`, its lookups through the as-written order, and stores it as the package data |
| `Npm.Requirements` | citelang/main/packages/npm_packages.py:31-37 | undecodable content gives no entries; otherwise the entries are those of the document's "dependencies" dict |
| `Npm.Unmarked` | citelang/main/packages/npm_packages.py:39 | the version loses every "^", "<", ">" and "=" and gains nothing |
| `Npm.UnmarkedKeeps` | citelang/main/packages/npm_packages.py:39 | a version without marks is unchanged |
| `Npm.UnmarkedIdempotent` | citelang/main/packages/npm_packages.py:39 | removing the marks twice is removing them once |
| `Npm.Version` | citelang/main/packages/npm_packages.py:39 | a version is read exactly from a string, as its unmarked text; anything else is a TypeError |
| `Npm.DropFirstAt` | citelang/main/packages/npm_packages.py:42 | the first "@" of the name, if any, is removed and nothing else |
| `Npm.NotJson` | citelang/main/packages/npm_packages.py:31-34 | content that is not JSON yields the start record with no dependencies and no lookup |
| `Npm.NoDependencies` | citelang/main/packages/npm_packages.py:37 | a document without "dependencies" yields no dependencies |
| `Npm.StepDirect` | citelang/main/packages/npm_packages.py:42-46 | a name found at once is recorded as it stands once its first "@" is gone |
| `Npm.StepRetry` | citelang/main/packages/npm_packages.py:47-52 | a name not found is looked up again by its part before the first "/", and skipped when that fails too |
| `Npm.StepMeans` | citelang/main/packages/npm_packages.py:37-77 | a turn adds an "NPM" record named after the entry, numbered by the unmarked version or the latest; a version that is not a string is a TypeError |
| `Npm.DepsMeans` | citelang/main/packages/npm_packages.py:36-77 | at most one "NPM" record with a non-empty name per entry |
| `Npm.Lookups` | citelang/main/packages/npm_packages.py:37-77 | the loop returns and caches as `Deps` says, its lookups through the as-written order |
| `Npm.Parse` | citelang/main/packages/npm_packages.py:25-82 | `parse` returns and caches as `ParseOf` says, its lookups through the as-written order, and stores the record as the package data |

## Left out

- Network access: `client.py`, `http.py`, `packages/github.py`, `packages/spack.py` and the HTTP request in `get_endpoint` are not part of this model. Every Libraries.io or GitHub lookup of the package managers is a `fetch` parameter that returns the decoded JSON, or nothing. `_graph` is the exception: its lookup, `Config.lookup`, returns dependency entries that are already typed (see the DepRecord line below).
- `packages/pip_wrapper.py` is not part of this model: it runs pip and reads its internal objects.
- `blame_task`, `CommitStats` and the file walking of `ContributionParser` run git in subprocesses and a process pool. `parse_blame_output` is modelled on the blame text they produce.
- Rendering is left out: printing, the rich tables, the graph formats (dot, gexf, cypher, tree), the badge plots and the command line. These only display the values the model computes.
- Python floats are modelled as `real`. `round()` and `str()` of a float are function parameters wherever the source calls them (graph, credit engine, tree, parser), so rounding and float formatting are not modelled.
- The iteration order of a Python set (`ensure_complete_list`, `list(node_names)`) is a parameter: CPython's hash order is not modelled.
- In `_graph`, `check_manager` and the switch to `pkg.underlying_manager` (`base.py:111`, `base.py:118-119`) are left out: dependencies are looked up by node name through the `Config.lookup` field, which `CreditEngine.Deps` reads.
- BuildGraph (`CreditEngine.BuildGraph`): requires `0 < credit_split` and `0 < min_credit`, which `_graph` does not demand. Without them the walk need not terminate; see Findings.
- DepRecord (`CreditEngine.DepRecord`, `Config.lookup`): a dependency entry holds its "name" and "project_name" as optional strings, and a lookup gives a list of such entries or nothing. Two escapes of `_graph` are therefore not expressible. A "name" that is JSON `null` or not a string makes `d["name"].startswith("__")` raise AttributeError (`base.py:152-154`, outside the `try`). A package answer whose "dependencies" is `null` makes `dependencies(return_data=True)` return None (`package.py:73`), and `for d in deps` then raises TypeError (`base.py:151`).
- PyStr.Lower: ASCII letters only; Python's Unicode case mapping is not modelled. This affects table dedupe, `parse_boolean` and titles.
- PyStr.Capitalize: ASCII letters only, for the same reason.
- PyStr.ParseInt: accepts an optional sign and ASCII digits with surrounding whitespace; the underscores and non-ASCII digits Python's `int()` also accepts are not modelled.
- Endpoints.ParseDate: models `strptime(..., "%Y-%m-%d")` with ASCII digits only: four for the year, one or two for the month, and one or two (or a space and one) for the day, within the valid ranges; the non-ASCII Unicode digits that the `\d` of `strptime`'s patterns also matches are not modelled.
- update_nested: when it raises a `KeyError` part way through, the keys it already changed in place are not kept in the model; the result is the error alone.
- `iter_items` filters given as YAML `null` are modelled as empty lists.
- A `Meta.url` of `None` in the parser is modelled as the empty text.
- `json.loads` of `package.json` (npm) is a `meta: Option<Value>` parameter, where `None` is a decoding error.
- `yaml.load` of the settings file is a `read` parameter that returns fields; a file that loads to `None` or to something other than a dict is not expressible.
- Python equality across types (`True == 1 == 1.0`) in `value in current` and in the seen checks is not modelled: values are compared structurally.
- Cache aliasing: `cache.set` keeps `result.data` by reference, and a later `Package.order` mutates it. The model stores copies of values.
- Logging is left out, apart from `logger.exit`, which is an `Exit` error.
- ContribSummary.SortByCount: Python's comparison of two lists is not modelled; sorting values that are neither all numbers nor all strings is a `TypeError`.
- Cache paths: `os.path` and `cache_dir` are not modelled; files, marks and directories are keyed by their path relative to `cache_dir`, which is the empty path.
- Cache directories: only whether a directory exists is modelled. `mkdir_p` exiting when a path exists as something other than a directory, and other operating-system errors (permissions, a full disk), are not modelled.
- `Settings.save`, `Settings.edit` and `inituser` write files or start an editor, and are left out.
- The clock: timestamps are a `now` parameter.

## Findings

| source | as written | input that shows it | evidently intended | confidence | as-written member | corrected member |
|---|---|---|---|---|---|---|
| citelang/utils/string.py:22 | a number under a key that both dicts hold as a number is added as `data[k] + data[v]`, which looks up the value as a key | `{"t": 1}` updated with `{"t": 2}` raises `KeyError` | `data[k] + v`, so the counts are added: `{"t": 3}` | not executed | `NestedUpdate.AsWrittenExample`, `NestedUpdate.AsWrittenCollisionFails` | `NestedUpdate.MergeAddsCounts` |
| citelang/main/endpoints.py:170-173 | the fallback sort of `Package.order` runs only when "versions" is missing, and then reads `data["versions"]` | a package dict without "versions" raises `KeyError` | the fallback runs only when "versions" is present, so a dict without versions comes back as it was | not executed | `Endpoints.AsWrittenMissingVersions` | `Endpoints.PackageOrderMeans` |
| citelang/main/contrib.py:282-293 | the alias rebinds the loop variable `author`, so the ignore check of the next record tests the alias | authors `{a: b}`, ignore_users `[a]`: the second record of `a` is yielded under `b` | every record is checked under its own author and yielded under the alias, so ignored users are never yielded | not executed | `Contrib.AsWrittenLeak` | `Contrib.IntendedScan` |
| citelang/main/packages/go_mod.py:71 | a found module reads `dep.data`, where `dep` is unbound for the first module and an earlier record's dict after that | a `go.mod` whose first module the lookup finds ends with `NameError` | read the found package's data, so found modules are recorded as Go packages | not executed | `GoMod.AsWrittenFirstFound` | `GoMod.StepFound` |
| citelang/main/settings.py:286-290 | a param that fails the format check is warned about but not skipped, and is then split on ":" | the param `cache_dir` raises `ValueError` | skip the param, as the warning says | not executed | `Settings.AsWrittenNoSkip` | `Settings.ParamsSkipMalformed` |
| citelang/main/settings.py:310 | the dispatch tests for "remove" only, though the format test before it admits "rm" | `rm:key:value` changes nothing | "rm" removes, as "remove" does | not executed | `Settings.AsWrittenIgnoresRm` | `Settings.RmRemoves` |
| citelang/main/packages/python_base.py:29 | local installs are detected by `"-e" in line`, which matches any name with "-e" in it; the comment check at line 34 can never fire, since the text after "#" was already cut off | `python-engineio==4.3.1` is dropped | skip lines that start with "-e" only | not executed | `PythonDeps.AsWrittenDropsEngineio` | `PythonDeps.EntrySkips` |
| citelang/main/settings.py:81 | `get_settings_file` reads `defaults.env_settings_file`, which `citelang/defaults.py` does not define | any call: `load`, and with it the `cfg = init_settings()` run at import (settings.py:338), raises AttributeError | the environment's settings file is used first when it is defined and present, then the user's, then the default | not executed | `Settings.ShippedDefaultsRaise` | `Settings.LoadMeans` |
| citelang/main/base.py:144-228 | `_graph` accepts any `credit_split` and `min_credit` | a package that depends on itself, with `credit_split` 0 and no `max_depth` or `max_deps`, never stops | stop once the credit of a child can no longer shrink below `min_credit`; the model requires positive `credit_split` and `min_credit`, and then the walk terminates | not executed | `CreditEngine.SelfLoopNeverStops` | `CreditEngine.BuildGraph` |
