# slngen in Dafny

slngen builds a temporary Visual Studio solution (`.sln`) from a set of MSBuild
project files. It starts from the files and directories named on the command
line, follows every project's `ProjectReference`, `ProjectFile` and
`SolutionItem` items to close the set, validates each project, and writes one
`Project(...)` block per accepted project. Optionally it also writes a
solution-folder tree that mirrors the directory layout, and a global section
with the build configurations.

This project models the core of that program in Dafny and proves what it does:

- `Closure`: the `ProjectClosure` class.
  - `projectsToLoad`, `actualProjects`, `solutionItems`, the project registry and its GUID and name indexes are fields the methods update.
  - `AddEntriesToParseFiles`, `ProcessProjectFiles`, `GetOrCreateProjectInfo`, `ValidateNoOverlap`, `UnsafeImports` and `HasUnsafeImports` are proved against specification functions.
  - `ProjectInfo.FindAllReferences` is a method of the class, because it updates the closure's queue and solution items.
- `ProjectInfos`: the checks of the `ProjectInfo` constructor, as a specification `Validate`/`Checks` plus the methods that make the reports in the source's order.
- `SlnText`: the text `CreateTempSlnFile` writes, pass by pass, and the properties of that text.
- `Nesting`: the `NestingDir` tree, as the class `NestingTree` over a sequence of nodes (the root is node 0). Children are kept sorted by their lower-case key, as `SortedList` keeps them.
- `VSPaths`: `VSPath`, the `drive_`/`network_` component encoding and its round trips.
- `SlnErrors`: the static error state of `SlnError`, as the class `ErrorSink`.
- `Configs`: `Config`, covering verbosity, version, devenv arguments and solution file names.
- `ProgramArgs`: `ProgramArguments`, covering command-line splitting, switches, positionals and `@file` argument files.
- `MProj`: `MProjToCsProj`, the `.mproj` to `.csproj` conversion.
- `Util`: `Util.ExtractQouted`.
- Support modules:
  - `Text`: ordinal string helpers and ASCII case mapping.
  - `PathLib`: the parts of `System.IO.Path` that are used.
  - `Guids`: GUIDs and their `"B"` format.
  - `Environment`: the file system and MSBuild as a `World` value.
  - `Wrappers`.

The file system, MSBuild's project evaluation, `Guid` parsing, `Uri` arithmetic
and `Path.GetFullPath` are inputs: `Environment.World` holds them as functions.
`World.Valid()` gives every directory a height, so the recursion over
subdirectories terminates. `Guid.NewGuid` is a `GuidSource` object that hands
out `generate(0)`, `generate(1)`, … in order.

## Model

| member | source | states |
|---|---|---|
| Util.ExtractQuoted | slngen/Util.cs:10-28 | The loop returns `Extracted(s)`: nothing for a null or empty string; otherwise, segment by segment of the split on `"`, the white-space separated words of even segments and the odd segments verbatim |
| Util.UnquotedGivesWords | slngen/Util.cs:13-25 | A string without quotes gives exactly its white-space separated words |
| Util.QuotedIsVerbatim | slngen/Util.cs:15-25 | `a"q"b` gives the words of `a`, then `q` unchanged (even if empty or containing blanks), then the words of `b` |
| VSPaths.TagVolume | slngen/VSPath.cs:50-55 | A volume ending in `:` becomes `drive_` plus the volume without the colon; any other volume becomes `network_` plus the volume |
| VSPaths.FromParts | slngen/VSPath.cs:36-59 | The full name is the directory combined with name plus extension; the components are the directory's components; `vsPath` joins them with the separator |
| VSPaths.EmptyPathFromParts | slngen/VSPath.cs:16-17 | `emptyPath` is the path built from three empty strings |
| VSPaths.FromComponents | slngen/VSPath.cs:61-93 | A path rebuilt from components keeps all but the last `levelsDown` of them; its full name is its directory name, and `vsPath` joins all the components |
| VSPaths.GetFromDir | slngen/VSPath.cs:95-105 | A null or empty path gives `emptyPath`; otherwise full name and directory name are the path and the components are parsed from it |
| VSPaths.GetFromFile | slngen/VSPath.cs:107-126 | A null or empty path gives `emptyPath`; otherwise the directory, file name without extension and extension of the path, with the directory's components |
| VSPaths.GetFromComponents | slngen/VSPath.cs:128-137 | No components give `emptyPath`; otherwise the path has exactly those components |
| VSPaths.GetAncestorDirectory | slngen/VSPath.cs:139-148 | A path with no components, or `levelsDown` at least their number, gives `emptyPath`; otherwise the first `count - levelsDown` components (a negative count is taken as 0) |
| VSPaths.VsName | slngen/VSPath.cs:27-34 | The last component, or "" for a path without components |
| VSPaths.Key | slngen/VSPath.cs:150-169 | A path's key is its lower-case full name together with its lower-case `vsPath`, the two strings `Equals` compares |
| VSPaths.EqualsIsKeyEquality | slngen/VSPath.cs:150-159 | `Equals` holds exactly when both the lower-case full names and the lower-case `vsPath`s are equal, that is, when the keys are equal |
| VSPaths.EqualPathsHashEqually | slngen/VSPath.cs:166-169 | Equal paths hash from the same input, as a `Dictionary` key requires |
| VSPaths.ComponentsRoundTrip | slngen/VSPath.cs:61-93 | Rebuilding a directory from well-formed components and parsing it again gives the same components |
| VSPaths.DriveRoundTrip | slngen/VSPath.cs:50-92 | A `drive_X` head component is written as volume `X:` and tagged back to `drive_X` |
| VSPaths.NetworkRoundTrip | slngen/VSPath.cs:50-92 | Any other head component is written as a network volume that is tagged back to the same component; splitting the written directory again gives the same pieces |
| VSPaths.AncestorComponents | slngen/VSPath.cs:139-148 | The ancestor `levelsDown` above a well-formed path parses back to the first `count - levelsDown` components |
| VSPaths.AncestorOfParsedPath | slngen/VSPath.cs:139-148 | The same, for a path the constructor builds from a directory with at least one component (unless the first one starts with `drive_network_`) |
| SlnErrors.ErrorSink.Init | slngen/SlnError.cs:96-120 | After `Init`, the default errors are enabled, the names are those of `allEnabled`, the translate table is the initial one and no error is recorded |
| SlnErrors.InitialTranslateLookup | slngen/SlnError.cs:106-117 | Every reportable id is found under its lower-case name (enable) and under `-` plus that name (disable); `none`, `default`, `all` and `pedantic` name the selectors |
| SlnErrors.CategoryEntriesLookup | slngen/SlnError.cs:106-112 | Each id of a category table is filed under its name and under `-` plus its name |
| SlnErrors.CategoryEntriesKeys | slngen/SlnError.cs:106-112 | The table holds no other keys |
| SlnErrors.LowerNameInjective | slngen/SlnError.cs:109 | Distinct ids have distinct lower-case names, so the translate table loses nothing |
| SlnErrors.TablesNest | slngen/SlnError.cs:30-78 | `defaultEnabled` ⊆ `allEnabled` ⊆ `pedantic`, and `pedantic` is every id except the four selectors |
| SlnErrors.ChangeIgnoresCase | slngen/SlnError.cs:122-126 | `ChangeEnabled` gives the same result for names equal up to case |
| SlnErrors.UnknownNameChangesNothing | slngen/SlnError.cs:124-126 | A name that is not in the table is refused and changes nothing |
| SlnErrors.SelectorsReplace | slngen/SlnError.cs:131-153 | `none`, `default`, `all` and `pedantic` replace the enabled set by the empty set, `defaultEnabled`, `allEnabled` and `pedantic` |
| SlnErrors.CategoryToggles | slngen/SlnError.cs:155-160 | An id's name adds it to the enabled set; `-` plus the name removes it |
| SlnErrors.ErrorSink.ChangeEnabled | slngen/SlnError.cs:122-164 | Returns whether the name is known; the enabled set becomes `ChangedEnabled` of the old one, or stays when the name is unknown; nothing else changes |
| SlnErrors.ErrorSink.EnableOnly | slngen/SlnError.cs:133-152 | A selector clears the enabled set and enables exactly the ids of its table; names, translate table and errors are unchanged |
| SlnErrors.ErrorSink.ReportError | slngen/SlnError.cs:166-172 | An enabled id appends one record (id, source, no extra lines); a disabled one appends nothing |
| SlnErrors.ErrorSink.ReportErrorWithInfo | slngen/SlnError.cs:174-180 | The same, with the one extra line |
| SlnErrors.ErrorSink.ReportErrorWithLines | slngen/SlnError.cs:182-188 | The same, with the given extra lines |
| SlnErrors.KeptAppend | slngen/SlnError.cs:166-188 | What the sink keeps of a + b is what it keeps of a, then of b: reports can be filtered one at a time or all at once |
| SlnErrors.KeptSnoc | slngen/SlnError.cs:166-188 | One more report is kept exactly when its id is enabled |
| Nesting.NestingTree.constructor | slngen/NestingDir.cs:70-81 | The real root: one node with a new GUID, no children and no projects |
| Nesting.NestingTree.GetDir | slngen/NestingDir.cs:96-112 | The node reached by the path's lower-case component keys from the root, created as needed. Its depth is the number of components. An existing path changes nothing. At most one node per component is added, and no existing link changes. The added nodes are the path's directory (the newest, which is the node returned) and its ancestors, one level up each, oldest first; they take the next GUIDs of the supply in order, and the supply advances by one per added node |
| Nesting.DescendAll | slngen/NestingDir.cs:98-111 | The loop on the node sequence: the node is reached by every key of the path and lies as deep as the path has components; the nodes grow only by new children; an existing path adds nothing. The added nodes are the path's directory and its ancestors, newest deepest, with the next GUIDs of the supply in order, and the count returned is advanced by one per added node |
| Nesting.Descend | slngen/NestingDir.cs:100-109 | One turn of the loop follows one more key of the path and keeps `Descended`: a node added on this turn is the ancestor the turn is at, takes the next GUID of the supply, and becomes the current node; the supply count grows by one per added node |
| Nesting.ChildFor | slngen/NestingDir.cs:104-108 | The child under the ancestor's key: found when it exists, with no change and no GUID drawn; otherwise a new last node with the next GUID, the ancestor's path, the current node as parent and no children or projects, filed in key order under the current node, and the supply count advances by one |
| Nesting.Arrived | slngen/NestingDir.cs:96-112 | At the end of the loop the node is reached by the path's keys and lies as deep as the path has components; an existing path leaves the tree unchanged, at most one node per component is added, each added node took the next GUID in order, and the newest added node is the one reached |
| Nesting.FindChild | slngen/NestingDir.cs:105 | A child found is filed under the key; none means no child has the key |
| Nesting.NestingTree.AddProjectFile | slngen/NestingDir.cs:114-118 | The path's node files the project name under its lower-case key; no other node's projects change. The nodes added on the way are the path's directory and its ancestors, with the next GUIDs of the supply in order, and the supply advances by one per added node |
| Nesting.NestingTree.DisplayRoot | slngen/NestingDir.cs:56-67 | The loop returns `DisplayRootFrom(nodes, 0)` |
| Nesting.DisplayRootStops | slngen/NestingDir.cs:62 | The display root has no single child or holds a project |
| Nesting.DisplayRootOnDescent | slngen/NestingDir.cs:56-67 | The display root lies on the chain of only children below the real root |
| Nesting.CountIsOnePlusAllChildren | slngen/NestingDir.cs:17-40 | `countAllUnder` is one more than the length of `allChildren` |
| Nesting.AllChildrenBelow | slngen/NestingDir.cs:17-30 | Every node in `allChildren` is a later, deeper node |
| Nesting.WalkDepth | slngen/NestingDir.cs:96-112 | Following k keys from a node goes exactly k levels deeper |
| Nesting.FindListedChild | slngen/NestingDir.cs:105-108 | With distinct keys, the child found under a listed key is the one filed there |
| Nesting.InsertChild | slngen/NestingDir.cs:105-106 | `SortedList.Add` of a new key keeps the keys ordered and distinct and adds exactly that child |
| Nesting.WithProject | slngen/NestingDir.cs:117 | Filing a project changes only that node's project map, and no children |
| Configs.TallyVerbosity | slngen/Config.cs:358-363 | The loops give (trues − falses of `verbose`) − (trues − falses of `quiet`) |
| Configs.DeltaCounts | slngen/Config.cs:359-360 | A flag list's delta is its count of `true` minus its count of `false` |
| Configs.QuietIsNegatedVerbose | slngen/Config.cs:359-363 | Each `/quiet` counts as a negated `/verbose` |
| Configs.VerbosityIsClampedTally | slngen/Config.cs:365-371 | The verbosity is the tally clamped to −1…2 (`Quiet` … `ReallyVerbose`) |
| Configs.VerbosityMonotone | slngen/Config.cs:365-371 | A larger tally never gives a lower verbosity |
| Configs.ExplicitVersion | slngen/Config.cs:196-201 | "12" gives VS12, "11" gives VS11, anything else VS14; VS10 is never chosen |
| Configs.VersionRoundTrip | slngen/Config.cs:196-201 | Each version's number selects it again, except VS10, which selects VS14 |
| Configs.DefaultSwitches | slngen/Config.cs:151-160 | With no switches, VS is launched and references are not skipped; `/noSkipRefs-` turns skipping on and `/validate` stops the launch |
| Configs.DevenvArgsRoundTrip | slngen/Config.cs:225-252 | The devenv argument string, split again by `ExtractQouted`, gives the flag words and then the quoted solution file as one argument |
| Configs.VsmsbuildArgsRoundTrip | slngen/Config.cs:333-352 | The same, for the vsmsbuild arguments |
| Configs.CreateSlnFilenameShape | slngen/Config.cs:431-438 | The name made ends in `.sln`, and its stem is the given file's stem plus the base-directory tag |
| Configs.Config.SetSlnFile | slngen/Config.cs:216-220 | The solution file is set only when it is not set yet |
| Configs.Config.SetSlnFileByName | slngen/Config.cs:443-450 | When unset, it becomes the name made from the current directory and the base name |
| Configs.Config.CreateTargetSlnFilename | slngen/Config.cs:455-470 | When unset, it becomes the name made in `%INETROOT%\target\Solutions` from the first initial project, or "Project" |
| Configs.Config.GuessDefaults | slngen/Config.cs:395-426 | With no initial projects: the current directory when recursing, otherwise the project files found there. Then the solution file is guessed from the current directory (a single project) or the default directory; a set solution file is kept |
| Configs.Config.Make | slngen/Config.cs:354-385 | The object the constructor fills: every field holds the value given |
| Configs.NewConfig | slngen/Config.cs:354-385 | The constructor: the verbosity of the tally; the status from the usage error; the `files` list; the solution file from `/outputFile`, made in the output file's directory (a root path has no directory name, and the name cannot be built: an error); each `/error` name applied to the sink in turn; when the name cannot be built the sink is left as it was |
| Configs.ApplySelectors | slngen/Config.cs:383-384 | The sink's enabled set becomes the result of applying every name in order |
| Configs.EnabledAfterStep | slngen/Config.cs:383-384 | Applying one more name is one more `ChangeEnabled` |
| ProgramArgs.FirstReservedExactly | slngen/ProgramArguments.cs:86-97 | No error exactly when no argument name contains `- + : = /`; an error names an argument and a reserved character it contains |
| ProgramArgs.CheckReservedNames | slngen/ProgramArguments.cs:86-97 | The loops return the first such error |
| ProgramArgs.SwitchByFirstTwo | slngen/ProgramArguments.cs:656-662 | An argument is a switch exactly when it starts with `-` or `/` and the next character does not repeat it |
| ProgramArgs.IndexOfCloseQuote | slngen/ProgramArguments.cs:614-628 | The loop returns the first quote after the open quote that is not doubled, or −1 |
| ProgramArgs.CloseQuoteAfterDoubled | slngen/ProgramArguments.cs:614-628 | Doubled quotes inside quoted text are skipped; the closing quote is found after them |
| ProgramArgs.NoCloseQuote | slngen/ProgramArguments.cs:614-628 | Without a later quote the result is −1 |
| ProgramArgs.SplitArguments | slngen/ProgramArguments.cs:554-611 | The loop returns `SplitArgumentsOf(line)` |
| ProgramArgs.PlainLineIsWords | slngen/ProgramArguments.cs:558-576 | A line without quotes splits into its blank-separated words |
| ProgramArgs.QuotedTextEndsArgument | slngen/ProgramArguments.cs:579-600 | Quoted text is appended to the current argument and ends it |
| ProgramArgs.UnmatchedQuoteThrows | slngen/ProgramArguments.cs:579-600 | A quote without a closing one is an error carrying the argument so far |
| ProgramArgs.SwitchValueRoundTrip | slngen/ProgramArguments.cs:632-654 | `/name:value` and `/name=value` split into the name and the value |
| ProgramArgs.SplitAtSeparator | slngen/ProgramArguments.cs:632-654 | A switch splits at its first separator into the trimmed name and the trimmed value |
| ProgramArgs.SeparatorLastDropsValue | slngen/ProgramArguments.cs:632-654 | A switch that ends in a separator keeps only the name |
| ProgramArgs.PositionalsPassThrough | slngen/ProgramArguments.cs:632-654 | Arguments that are not switches pass through unchanged |
| ProgramArgs.FindSwitch | slngen/ProgramArguments.cs:483-489 | A match is a non-positional argument whose name or short form equals the switch, ignoring case; none means no such argument |
| ProgramArgs.FindPositional | slngen/ProgramArguments.cs:518-523 | A match is a positional argument that is unset or a list; none means every positional is set to a single value |
| ProgramArgs.ParseBool | slngen/ProgramArguments.cs:533-535 | The type converter turns a positional argument of a bool type into true or false: `true` or `false`, ignoring case and surrounding blanks, and nothing else |
| ProgramArgs.Store | slngen/ProgramArguments.cs:534-545 | Only the argument's own entry changes: a single value replaces it, and a list value is appended to it |
| ProgramArgs.SingleArgument | slngen/ProgramArguments.cs:454-546 | A successful argument changes only its own entry, and uses the next argument only when there is one |
| ProgramArgs.FlagTwiceThrows | slngen/ProgramArguments.cs:493-496 | A flag given twice is the error `CannotSetArgumentMultipleTimes` |
| ProgramArgs.StringSwitchOverwrites | slngen/ProgramArguments.cs:537-545 | A string switch given twice takes the second value, because a string counts as `IEnumerable` |
| ProgramArgs.ArraySwitchAccumulates | slngen/ProgramArguments.cs:537-541 | A list switch given twice keeps the first value and appends the second |
| ProgramArgs.StripComment | slngen/ProgramArguments.cs:446-447 | An argument-file line is cut at its first `#`; a line without `#` is kept whole |
| ProgramArgs.NoneMissingExactly | slngen/ProgramArguments.cs:410-416 | No missing argument exactly when every argument without a default is set |
| ProgramArgs.ParsedHasRequired | slngen/ProgramArguments.cs:402-425 | A parse without error has every required argument set |
| ProgramArgs.FindMissingRequired | slngen/ProgramArguments.cs:410-416 | The loop returns the first required argument that is not set |
| ProgramArgs.ExitCodeOf | slngen/ProgramArguments.cs:361 | −1 exactly when usage must be shown and there is a usage error, otherwise 0 |
| ProgramArgs.ProgramArguments.ProcessAllArguments | slngen/ProgramArguments.cs:402-425 | The values are those parsed; a parse error becomes the usage exception; `help` or an error asks to show usage |
| ProgramArgs.ProgramArguments.ProcessArguments | slngen/ProgramArguments.cs:427-439 | The loop matches `RunArgs` on the argument names split from their values |
| ProgramArgs.ProgramArguments.ProcessArgumentFile | slngen/ProgramArguments.cs:441-450 | Each line of the file, comment stripped and split, is processed in order, as `RunFile` states |
| ProgramArgs.ProgramArguments.ProcessSingleArgument | slngen/ProgramArguments.cs:454-546 | One argument, or an `@file`, as `ArgStep` states |
| ProgramArgs.ProgramArguments.SetUsageException | slngen/ProgramArguments.cs:104-108 | Setting the usage exception also asks to show usage |
| ProgramArgs.New | slngen/ProgramArguments.cs:80-102 | A reserved character in a name is an error. Otherwise a fresh object holds the parse of the arguments, its usage exception and its exit code |
| ProgramArgs.FromCommandLine | slngen/ProgramArguments.cs:75-78 | The command line is split, its first word (the program) is dropped, and the rest is parsed; a split error is returned as such |
| MProj.ScanImports | slngen/MProjToCsProj.cs:43-58 | The loop finds the last non-imported M targets import and whether some other import names BuildSettings |
| MProj.LastMTargetsImport | slngen/MProjToCsProj.cs:45-58 | The position found is an M targets import with none after it, and none means there is none |
| MProj.OnlyLastMTargetsRemoved | slngen/MProjToCsProj.cs:60-74 | Only the last M targets import is removed; all other imports keep their order; two imports are added |
| MProj.AddedImportsLast | slngen/MProjToCsProj.cs:65-74 | The last two imports are the Oslo pair for Oslo projects, otherwise the plain C#/M pair |
| MProj.MTargetsImportsNeverSelectOslo | slngen/MProjToCsProj.cs:48-57 | When every import naming BuildSettings is itself an M targets import, the plain pair is chosen |
| MProj.RenamedItems | slngen/MProjToCsProj.cs:84-120 | Each item is renamed on its own; the count and the order are kept |
| MProj.RenamedItemNames | slngen/MProjToCsProj.cs:86-119 | No C# item name survives the renaming; other names are kept; only `ProjectReference` items change their include |
| MProj.ProjectReferenceToGenerated | slngen/MProjToCsProj.cs:114-116 | `x.mproj` references become `x_generated.csproj` |
| MProj.RenameGroupItems | slngen/MProjToCsProj.cs:77-121 | The loop returns the converted item groups |
| MProj.RenamedCopyMeaning | slngen/MProjToCsProj.cs:138-211 | A property yields the renamed copy exactly when the table renames its name, with the same value, and the copy is never removed |
| MProj.ConvertedPropertiesMeaning | slngen/MProjToCsProj.cs:124-229 | Converted groups hold no removed names, every renamed copy, every kept property, and nothing else |
| MProj.CollectChanges | slngen/MProjToCsProj.cs:131-220 | The loop collects the copies to add and the positions to remove |
| MProj.RemovedPositions | slngen/MProjToCsProj.cs:140-148 | A position is collected exactly when it lies before the scan's end and its property is one to remove |
| MProj.RewriteGroup | slngen/MProjToCsProj.cs:221-228 | Removing the collected positions and appending the copies gives the converted group |
| MProj.RewriteGroups | slngen/MProjToCsProj.cs:124-229 | The loop returns the converted property groups |
| MProj.DroppedNotRenamed | slngen/MProjToCsProj.cs:140-148 | `MPackageScript`, `MPackageImage` and `MTargetsPath` are dropped without a copy |
| MProj.ConvertedProjectSettings | slngen/MProjToCsProj.cs:231-235 | `AssemblyName` becomes the old name plus `_generated`, `OutputType` becomes `Library`, `MxOutputFileName` becomes the old name plus `.mx`; other set properties are kept |
| MProj.BuildProject.Load | slngen/MProjToCsProj.cs:39-40 | The loaded project is the MSBuild project read |
| MProj.BuildProject.ReplaceImports | slngen/MProjToCsProj.cs:42-74 | Only the imports change, to the converted imports |
| MProj.BuildProject.RenameItems | slngen/MProjToCsProj.cs:76-121 | Only the item groups change, to the converted groups |
| MProj.BuildProject.RewriteProperties | slngen/MProjToCsProj.cs:123-229 | Only the property groups change, to the converted groups |
| MProj.BuildProject.SetCsProjProperties | slngen/MProjToCsProj.cs:231-235 | Only the set properties change, as `ConvertedProjectSettings` states |
| MProj.ConvertIfIsMProj | slngen/MProjToCsProj.cs:26-31 | Not `.mproj` (ignoring case): the file is used as it is; otherwise the converted project, saved under the `.csproj` path |
| ProjectInfos.HasCompileItem | slngen/ProjectInfo.cs:84-89 | Compilable exactly when some item's type is COMPILE, CLCOMPILE or MCOMPILE, ignoring case |
| ProjectInfos.GuidMessage | slngen/ProjectInfo.cs:102-107 | The corrected message for an unparsable GUID (see Findings): "Missing Guid" for an empty ProjectGuid, otherwise "Malformed Guid" and the text. As written the program gives "Malformed Guid" and "" in the empty case too |
| ProjectInfos.MissingFileRecord | slngen/ProjectInfo.cs:63-67 | A missing file gives one MissingFile report and an invalid record without a project or GUID |
| ProjectInfos.LoadFailedRecord | slngen/ProjectInfo.cs:70-79 | A project that fails to load gives one LoadFailed report carrying the loader's message, and an invalid record |
| ProjectInfos.LoadedRecord | slngen/ProjectInfo.cs:81-129 | A loaded record keeps the project. It is compilable exactly when it has a compile item, and valid unless compilable with a bad version. It keeps the parsed GUID or draws a new one |
| ProjectInfos.GuidReports | slngen/ProjectInfo.cs:92-114 | A GUID is drawn exactly when the declared one does not parse, and kept otherwise. MissingOrBadGuid is reported once for a drawn GUID of a compilable project, as the first report and with the corrected GUID message, and once more, right after it, with the "Bad GUID" detail when the kept GUID is the sentinel and the project is compilable; no other check reports it |
| ProjectInfos.GuidChecksCount | slngen/ProjectInfo.cs:92-114 | The same count, over the GUID checks alone |
| ProjectInfos.VersionAndNameReports | slngen/ProjectInfo.cs:116-139 | For a compilable project only, one MissingVersion for an empty version, or one BadVersion for one that does not start with `10.`. One MissingAssemblyName for a compilable project whose assembly name is empty (the corrected check). One MismatchedAssemblyName for any project whose non-empty assembly name differs from the project name, ignoring case |
| ProjectInfos.VersionChecksCount | slngen/ProjectInfo.cs:116-129 | The version checks' counts, per id |
| ProjectInfos.NameChecksCount | slngen/ProjectInfo.cs:131-139 | The corrected assembly-name checks' counts, per id: one MissingAssemblyName for an empty name of a compilable project (never reported as written, see Findings), one MismatchedAssemblyName for a non-empty name that differs from the project name |
| ProjectInfos.OtherReportsCount | slngen/ProjectInfo.cs:116-139 | Every id other than MissingOrBadGuid comes only from the version and name checks |
| ProjectInfos.OtherChecksNoGuid | slngen/ProjectInfo.cs:116-139 | The version and name checks never report MissingOrBadGuid |
| ProjectInfos.NonCompilableQuiet | slngen/ProjectInfo.cs:116-139 | A project without compile items is valid and can only be reported for a mismatched assembly name |
| ProjectInfos.NewProjectInfo | slngen/ProjectInfo.cs:57-140 | The constructor, with the corrected GUID message and assembly-name check: the record of `Validate`. The sink gains its enabled reports in order. One GUID is drawn exactly when the declared one does not parse |
| ProjectInfos.CheckLoaded | slngen/ProjectInfo.cs:81-139 | The same, for a loaded project, with the corrected checks |
| ProjectInfos.ResolveGuid | slngen/ProjectInfo.cs:91-114 | The GUID kept or drawn, then the unparsable report (with the corrected message) and the sentinel report, in that order |
| ProjectInfos.KeepOrDrawGuid | slngen/ProjectInfo.cs:91-111 | The parsed GUID, or a new one together with the unparsable report carrying the corrected message |
| ProjectInfos.CheckSentinel | slngen/ProjectInfo.cs:113-114 | The sentinel GUID of a compilable project is reported |
| ProjectInfos.CheckVersion | slngen/ProjectInfo.cs:116-129 | The version reports; the record stays valid unless compilable with a bad version |
| ProjectInfos.CheckAssemblyName | slngen/ProjectInfo.cs:131-139 | The corrected assembly-name reports: MissingAssemblyName for an empty name of a compilable project, MismatchedAssemblyName as the source has it |
| Environment.LookupIgnoresCase | slngen/ProjectInfo.cs:169 | Property and metadata names are compared ignoring case: names that differ only in case read the same value (the maps are keyed by the lower-case name) |
| ProjectInfos.PropertyAsRead | slngen/ProjectInfo.cs:94 | `GetPropertyValue` never gives null: an absent property reads as "" |
| ProjectInfos.AbsentPropertiesAsWritten | slngen/ProjectInfo.cs:102-132 | As written, an absent ProjectGuid is reported as "Malformed Guid" with "", and an absent AssemblyName is never reported; the corrected checks say "Missing Guid" and report MissingAssemblyName once |
| Closure.ProjectClosure.constructor | slngen/ProjectClosure.cs:46-50 | An empty closure with a fresh nesting tree whose root has a new GUID |
| Closure.ProjectClosure.AddEntriesToParseFiles | slngen/ProjectClosure.cs:103-131 | The queue gains `EntriesFor(path)`'s paths and the sink its reports: a bad entry is reported, a file is pushed, a directory pushes its project files and, when recursing, its subdirectories' entries. The status is the error exactly for a bad entry |
| Closure.ProjectClosure.AddSubdirectories | slngen/ProjectClosure.cs:121-123 | The loop adds each subdirectory's entries in turn |
| Closure.ProjectClosure.AddAllEntriesToParseFiles | slngen/ProjectClosure.cs:86-98 | Every path's entries in order; the status is the error exactly when some path is bad |
| Closure.PushedAreFiles | slngen/ProjectClosure.cs:103-131 | A file entry pushes exactly itself, and everything pushed for a directory is an existing file |
| Closure.ExistingFileEntries | slngen/ProjectClosure.cs:103-115 | An existing entry that is bad (system, hidden or offline) is only reported; any other existing file is only pushed |
| Closure.FlatDirectoryEntries | slngen/ProjectClosure.cs:117-125 | A directory without recursion pushes exactly its project files and reports nothing |
| Closure.DirectoryEntries | slngen/ProjectClosure.cs:117-125 | A directory pushes its project files, then its subdirectories' entries when recursing |
| Closure.ProjectClosure.GetOrCreateProjectInfo | slngen/ProjectClosure.cs:166-199 | Returns the record filed under the (renamed) path. A known path changes nothing. A new path adds one record at the end with the constructor's record, reports and GUID draw, plus the duplicate reports against the earlier records |
| Closure.ProjectClosure.CreateProjectInfo | slngen/ProjectClosure.cs:174-196 | The same, for a path not yet filed |
| Closure.ProjectClosure.BuildRecord | slngen/ProjectClosure.cs:176 | The record of the converted or unconverted project |
| Closure.ProjectClosure.ConvertAndRecord | slngen/ProjectClosure.cs:168-176 | An `.mproj` is converted: its generated `.csproj` path is remembered against the `.mproj`, the record is built from that path, and validation sees a world in which that path is treated as an existing file; any other path is used unchanged |
| Closure.ProjectClosure.RegisterRecord | slngen/ProjectClosure.cs:178-195 | The registry gains the record under its key, GUID and name; the sink gains the duplicate reports |
| Closure.RegistryPath | slngen/ProjectClosure.cs:168-173 | A non-`.mproj` path is filed as it is |
| Closure.SourcePath | slngen/ProjectClosure.cs:168-176 | The path a record is created from: the `_generated.csproj` path for `.mproj` |
| Closure.DuplicatesMeanEarlierRecords | slngen/ProjectClosure.cs:180-195 | A duplicate GUID is reported exactly when an earlier record has the GUID, naming the latest such record. A duplicate name is reported exactly when an earlier record has the name, ignoring case |
| Closure.DuplicateReportsMeaning | slngen/ProjectClosure.cs:180-195 | The same, from what the two indexes hold |
| Closure.IndexesHoldEarlierRecords | slngen/ProjectClosure.cs:194-195 | The GUID and name indexes hold exactly the keys of earlier records, and no record after the one an index names has the same key |
| Closure.IndexesLatestMeans | slngen/ProjectClosure.cs:194-195 | A key is in an index exactly when some record has it, and the index points to the last record with that key |
| Closure.AddKeepsLookups | slngen/ProjectClosure.cs:174-178 | Filing a new record keeps the registry valid, finds it under its key, and keeps every earlier lookup |
| Closure.ProjectClosure.ReportDuplicates | slngen/ProjectClosure.cs:180-192 | The sink gains the enabled duplicate reports |
| Closure.ProjectClosure.ProcessProjectFiles | slngen/ProjectClosure.cs:136-161 | Ends with an empty queue. Every path that was queued is registered. Every new valid record is processed, and is accepted exactly when its reference walk did not fail. Every path an accepted project references is registered. Earlier accepted projects are kept |
| Closure.ProjectClosure.ProcessTop | slngen/ProjectClosure.cs:138-160 | One pass keeps the loop's invariant and decreases its measure |
| Closure.StepKeepsProgress | slngen/ProjectClosure.cs:138-160 | One pass keeps the loop invariant: every path seen is registered, new records are processed, accepted projects and their references are kept; earlier accepted projects stay |
| Closure.StepKeepsAccepted | slngen/ProjectClosure.cs:148-159 | After one pass, the accepted projects since the start are exactly the processed ones whose walk did not fail |
| Closure.StepKeepsReferences | slngen/ProjectClosure.cs:150-159 | After one pass, every file an accepted project references has been seen |
| Closure.StepDecreases | slngen/ProjectClosure.cs:138-143 | One pass registers a new path, or processes a record, or shrinks the queue: the loop ends |
| Closure.ProjectClosure.ProcessProject | slngen/ProjectClosure.cs:141-159 | One popped path: found or registered; an invalid or processed record is skipped; otherwise it is filed in the nesting tree and its references are walked |
| Closure.ProjectClosure.FindOrRegister | slngen/ProjectClosure.cs:141 | The record under the path's key, newly added and unprocessed when the key was new |
| Closure.ProjectClosure.Convert | slngen/MProjToCsProj.cs:26-31 | Converted exactly for an `.mproj` (ignoring case), which is then replaced by its generated path |
| Closure.ProjectClosure.VisitProject | slngen/ProjectClosure.cs:148-159 | The record is marked processed; the queue gains the walk's pushed paths; the project is accepted unless the walk failed |
| Closure.ProjectClosure.Conclude | slngen/ProjectClosure.cs:150-159 | The project is accepted exactly when no exception was raised |
| Closure.ProgressCloses | slngen/ProjectClosure.cs:138 | Once the queue is empty, the loop invariant is the closure's promise |
| Closure.MarkProcessedKeepsValid | slngen/ProjectInfo.cs:147 | Marking a record processed keeps the registry valid and its keys |
| Closure.ProjectClosure.FindAllReferences | slngen/ProjectInfo.cs:145-188 | The record is marked processed; solution items, queued paths, reports and failure are those of walking its ProjectReference, ProjectFile and SolutionItem items |
| Closure.ProjectClosure.FollowReference | slngen/ProjectInfo.cs:154-187 | One item: a solution item adds its relative path; a skipped reference does nothing; an existing referenced file is queued; a path error is a failure |
| Closure.WalkMeaning | slngen/ProjectInfo.cs:154-187 | A walk pushes only existing files and reports only bad entries; solution items come only from items, and only with a solution file |
| Closure.SkippedReference | slngen/ProjectInfo.cs:168-186 | A reference with `ReferenceOutputAssembly` False (ignoring case) is skipped only when skipping references |
| Closure.ProjectClosure.ValidateNoOverlap | slngen/ProjectClosure.cs:406-424 | True exactly when no registered path is in the other closure; each shared path is reported, in registration order |
| Closure.OverlapReportsMeaning | slngen/ProjectClosure.cs:406-424 | No report exactly when there is no shared path; every report names a shared path, and every shared path is reported |
| Closure.ProjectClosure.UnsafeImports | slngen/ProjectClosure.cs:429-452 | Computed once and cached: the imports of the accepted projects that are not safe, ignoring case |
| Closure.UnsafeImportsMeaning | slngen/ProjectClosure.cs:429-452 | The set has no duplicates up to case, and holds an import exactly when some accepted project imports it and it is not safe |
| Closure.UnsafeAmongMeaning | slngen/ProjectClosure.cs:435-447 | Adding to the case-insensitive set keeps it free of duplicates and adds exactly the unsafe imports |
| Closure.UnsafeAmongEmpty | slngen/ProjectClosure.cs:435-447 | Nothing is added exactly when every import is safe |
| Closure.AddUnsafe | slngen/ProjectClosure.cs:438-447 | The loop returns `UnsafeAmong` |
| Closure.AllImportsMeaning | slngen/ProjectClosure.cs:438-447 | The imports gathered are exactly the imports of each accepted project |
| Closure.ProjectClosure.HasUnsafeImports | slngen/ProjectClosure.cs:567-573 | Whether the unsafe-import set is non-empty: when it is computed here, true exactly when some accepted project has an import that is not safe; when cached, true exactly when the cached set is non-empty |
| Closure.AcceptedInfos | slngen/ProjectClosure.cs:228 | The accepted records, in acceptance order |
| Closure.ProjectClosure.CreateTempSlnFile | slngen/ProjectClosure.cs:205-401 | The file written is `TempSln` of the accepted projects, solution items, nesting tree and display root |
| SlnText.ProjectTypeTable | slngen/ProjectClosure.cs:231-255 | The extension switch: the C# type for `.csproj`, `.boot`, `.qproj` and `.xadproj`; `.mproj` throws; `.proj` lists nothing; no type is the folder or solution-items GUID |
| SlnText.ProjectTypeIgnoresCase | slngen/ProjectClosure.cs:231 | The switch ignores case |
| SlnText.HeaderNamesVersion | slngen/ProjectClosure.cs:304-326 | The header's VS number is the version's number and tells versions apart; only VS11 and VS12 share a format version |
| SlnText.ItemsSectionMeaning | slngen/ProjectClosure.cs:207-221 | No section exactly when there are no items; otherwise it starts with the solution-items head, ends with its tail, and holds each item's line in order |
| SlnText.BuildItemsSection | slngen/ProjectClosure.cs:207-221 | The loop returns `ItemsSection` |
| SlnText.AttachDirMeaning | slngen/ProjectClosure.cs:264-276 | A project hangs under its directory's node. A self-named-only node is replaced by its parent, and the real root has none. The node used is never self-named-only |
| SlnText.EntryFails | slngen/ProjectClosure.cs:248-268 | A pass throws exactly for an `.mproj`. It dereferences null exactly when a listed project is nested, its path has no directory component, and the real root holds only a self-named project (the root has no parent) |
| SlnText.EntryPieces | slngen/ProjectClosure.cs:257-276 | A block exactly for a listed type; a nesting line exactly when nesting and the node used is not the display root |
| SlnText.Entries | slngen/ProjectClosure.cs:228-277 | One entry per accepted project, in order |
| SlnText.EmitFails | slngen/ProjectClosure.cs:228-350 | The passes fail exactly when some project's entry fails |
| SlnText.EmitListing | slngen/ProjectClosure.cs:228-350 | Without failure, the sections are the concatenated blocks and lines, and the file is the last pass's text (the prior file when there is no project) |
| SlnText.EmitFailsAtFirst | slngen/ProjectClosure.cs:228-350 | The first failing entry's error is raised, and the file is the text of the pass before it |
| SlnText.EmitStops | slngen/ProjectClosure.cs:228-350 | Nothing after a failure changes the outcome |
| SlnText.BuildFolders | slngen/ProjectClosure.cs:279-302 | The loop returns `Folders` of the display root |
| SlnText.FolderListingEmpty | slngen/ProjectClosure.cs:284-301 | No folder block exactly when every node is self-named-only; no folder line exactly when each node is that or hangs at the root |
| SlnText.ListedParents | slngen/ProjectClosure.cs:284-301 | The parent of every node under the display root is the root or a node listed under it, and is never self-named-only, so every nesting line names a listed folder |
| SlnText.ConfigRowsOnlyForListed | slngen/ProjectClosure.cs:364-386 | Configuration rows exactly for `.csproj` and `.vcxproj`, which the file lists as C# and C++ projects |
| SlnText.BuildGlobalSection | slngen/ProjectClosure.cs:353-397 | The loop returns `GlobalSection` |
| SlnText.FinishShape | slngen/ProjectClosure.cs:205-401 | Writing succeeds exactly when every entry succeeds; the file then ends with the global section and, when a pass was written, starts with the header |
| SlnText.TempSlnShape | slngen/ProjectClosure.cs:205-401 | The same, for the whole `CreateTempSlnFile` |
| SlnText.ListProject | slngen/ProjectClosure.cs:230-277 | One project's block and nesting line, or its failure |
| SlnText.Pass | slngen/ProjectClosure.cs:228-350 | One pass of the loop, as `Step` states |
| SlnText.ProjectLoop | slngen/ProjectClosure.cs:228-350 | The loop returns `Emit` of the entries |
| SlnText.WriteTempSln | slngen/ProjectClosure.cs:205-401 | The method returns `TempSln` |

## Left out

- MSBuild's `properties` and item `metadata` are maps keyed by the lower-case name, so a lookup finds a name under any casing; a world whose map holds a key that is not lower-case never yields that entry.
- MSBuild, the file system, `Guid` parsing, `Uri` and `Path.GetFullPath` are inputs: `World` holds them as functions. Path exceptions are one `Err` value of `fullPath`.
- Case mapping is ASCII only. Culture-aware string compare in `SortedList` is replaced by ordinal order.
- `HashSet` iteration order is modelled as insertion order.
- Console output is not modelled: the "Bad file or directory" line, the unknown-extension message, the verbose "Processing Project" line, and `SlnError.PrintErrors`.
- These are not part of this model: the safe-imports registry (`GetSafeImports`, `GetSafeImportsPath`, `CanWriteSafeImports`, `CheckFor64BitOS`), `CreateAddSafeImportsCmdScript`, `AuthorizeUnsafeImports` and `FixToolVersions`. `UnsafeImports` takes the safe list as a parameter.
- The Visual Studio auto-detection from the registry (`/vsver:0`), `devenvExe` and `CleanupDefaultSolutionDirectory` are left out: they read the registry, the environment and the file system.
- Program.cs orchestration, `TypeBasedConverter`, usage/logo text and wildcard expansion are left out.
- The saved `.csproj` file is not modelled; `MProj.ConvertIfIsMProj` returns the converted project value.
- Closure.ProjectClosure.Convert: loading an `.mproj` cannot fail in the model (`World.loadMProj` always returns a project), and the `Delete`/`Save` of the generated file cannot fail either. In the program a malformed `.mproj` makes the load throw, outside any `try`, so the exception ends `ProcessProjectFiles`; the model converts it and carries on.
- Closure.ProjectClosure.ConvertAndRecord: the generated file's content is not tied to the world. Validation reads the generated path through `World.evaluate`, not through the converted project, and the path is treated as existing only in the world handed to validation.
- Closure.ProjectClosure.ProcessProjectFiles: the loop always ends with an empty queue, also on input where the program is aborted by a failing `.mproj` load (see `Closure.ProjectClosure.Convert`).
- ProgramArgs.ProgramArguments.ProcessArgumentFile: nested `@file` arguments are followed to a depth of 16 (`ArgumentFileDepth`); deeper nesting is reported as an error rather than followed.
- Closure.ProjectClosure.CreateTempSlnFile: the file is its text, and the text before the call is a parameter.
  - The header and the folder sections are built once; the source rebuilds them, unchanged, on every pass.
  - Every accepted project is assumed to be filed in the nesting tree, as `ProcessProjectFiles` does.
  - `WriteLine` ends lines with CR LF, and the verbatim strings use LF.
  - The `ArgumentOutOfRange` branch cannot be reached: the version has four values.
- Closure.ProjectClosure.ProcessProjectFiles: states the records, the queue and which projects are accepted. It does not state:
  - the order of the projects appended to `actualProjects` (only which projects are appended, and that the projects accepted earlier stay first in the same order);
  - `solutionItems`, which the walks of accepted projects append to;
  - `guids.issued`, the GUIDs drawn for the records and the tree;
  - the sink's reports: the validation, duplicate, MissingFile and LoadFailed reports the loop adds.
- ProjectInfos.GuidMessage: the corrected message ("Missing Guid" for an empty ProjectGuid); as written the program reports "Malformed Guid" and "" (see Findings, `ProjectInfos.GuidMessageAsWritten`).
- ProjectInfos.NameChecks: the corrected check reports MissingAssemblyName for an empty name; as written ProjectInfo.cs:131 never reports it (see Findings, `ProjectInfos.MissingAssemblyNameAsWritten`).
- ProjectInfos.Validate: built on the corrected `GuidMessage` and `NameChecks`, so its reports differ from the program's for an absent ProjectGuid or AssemblyName; so do `ProjectInfos.Checks` and every member below that uses them.
- ProjectInfos.GuidReports: the first report carries the corrected message.
- ProjectInfos.NameChecksCount: counts the corrected MissingAssemblyName report.
- ProjectInfos.NewProjectInfo: the sink gains the corrected reports.
- ProjectInfos.CheckLoaded: the sink gains the corrected reports.
- ProjectInfos.ResolveGuid: the unparsable report carries the corrected message.
- ProjectInfos.KeepOrDrawGuid: the unparsable report carries the corrected message.
- ProjectInfos.CheckAssemblyName: reports the corrected MissingAssemblyName.
- Closure.ProjectClosure.GetOrCreateProjectInfo: the new record's reports are those of the corrected `Validate`.
- Closure.ProjectClosure.CreateProjectInfo: the same.
- Closure.ProjectClosure.BuildRecord: the same.
- The order in which `Uri` errors would surface inside one walk is not modelled; a walk stops at its first failure.

## Findings

| source | as written | input that shows it | evidently intended | confidence | as-written member | corrected member |
|---|---|---|---|---|---|---|
| slngen/ProjectInfo.cs:131 | `assemblyName == null` never holds: `GetPropertyValue` returns "" for an undefined property | a compilable project without an AssemblyName property | report MissingAssemblyName when the name is null or empty | high (not executed) | ProjectInfos.AbsentPropertiesAsWritten | ProjectInfos.VersionAndNameReports |
| slngen/ProjectInfo.cs:102-107 | `guid == null` never holds, so the "Missing Guid" branch is dead | a compilable project without a ProjectGuid property | "Missing Guid" for an absent GUID, "Malformed Guid" with the text otherwise | high (not executed) | ProjectInfos.AbsentPropertiesAsWritten | ProjectInfos.GuidMessage |
