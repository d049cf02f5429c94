# dlsite-doujin-renamer, modelled in Dafny

This project models the core of dlsite-doujin-renamer, a console program that
files DLsite voice works into a `dest/maker/work` library. It covers three files:

- **`Renamer` (renamer.py).** For every folder the scanner finds, it reads the
  product code (`RJ…`) from the folder name and scrapes the work's metadata. It
  then creates the maker and work folders and downloads the cover. Folder by
  folder, it asks the user whether to add the flac and then the mp3 files, and
  under which disc number and subtitle. Each added file is copied, given the
  work's tags and its track and disc numbers, and gets the cover embedded.
- **`Scaner` (scaner/scaner.py).** A bounded-depth, pre-order folder walk with
  sorted children.
- **`ask_yes_no` and `ask_input` (console_utils.py).** Two prompts that read
  lines until one is accepted.

How the model is built:

- The file system is a value, `Fs = map<Path, Entry>`, threaded through the
  operations. A path is an absolute flag plus a list of components.
- The console is the sequence of lines the user will type. Running out of lines
  stands for the `EOFError` that `input()` raises.
- The product-code parser, the scraper and the cover request are the function
  fields of `Services`. The scraper's answer is a tagged outcome: metadata, a
  timeout, a connection error, an HTTP error, or another request error.
- The log is a sequence of records (level, code, event).
- Each loop of renamer.py and console_utils.py is a `method` with a loop. It
  is proved equal to a specification function, and the properties are proved
  about that function. The scanner's recursive walk, which only computes a
  list, is a recursive function.

Modules:

| module | file | what it holds |
|---|---|---|
| `Wrappers` | wrappers.dfy | `Option`, `Result` |
| `Text` | text.dfy | `str.strip`, `in` on strings, `str()` and `int()` of numbers, character classes |
| `Order` | order.dfy | Python's `<` on `str`, `sorted()` of a set of names |
| `Paths` | paths.dfy | `os.path.join`, `basename`, the pre-order path order |
| `FileSystem` | filesystem.dfy | the file-system map and `listdir`, `mkdir`, `copyfile`, tag and picture saves |
| `ConsoleUtils` | console_utils.dfy | `ask_yes_no`, `ask_input` |
| `Scaner` | scaner.dfy | `Scaner.scan` |
| `Naming` | naming.dfy | `__compile_new_name`, `__cleanup_work_name`, `__sniff_name`, `__sniff_name_from_folder` |
| `TagSelection` | tags.dfy | `__replace_tags` |
| `Renaming` | renaming.dfy | `Renamer.__init__`, `__mkdir`, `__download_cover`, `__write_tag`, `__write_tag_cover`, `__process_folder`, `rename` |

## Model

| member | source | states |
|---|---|---|
| ConsoleUtils.FirstRecognised | console_utils.py:8-13 | the position of the first line that is exactly a yes word or a no word; every line before it is neither |
| ConsoleUtils.YesNoReply | console_utils.py:8-13 | an answer consumes at least one line and no more lines than there are |
| ConsoleUtils.AskYesNo | console_utils.py:4-13 | the prompt loop returns the answer YesNoReply specifies, with the number of lines it read |
| ConsoleUtils.YesNoReplyMeaning | console_utils.py:10-13 | the answer is True exactly when the accepted line is one of y, Y, yes, Yes, YES; every earlier line, whether blank, padded or in another case, is ignored; no answer only when no line is accepted |
| ConsoleUtils.YesNoReplyPrefix | console_utils.py:8-13 | lines after the first accepted one never change the answer |
| ConsoleUtils.BlankStrip | console_utils.py:21-22 | a line is blank exactly when it strips to '' |
| ConsoleUtils.FirstNonBlank | console_utils.py:20-23 | the position of the first line that is not blank after stripping; every line before it is blank |
| ConsoleUtils.InputReply | console_utils.py:16-25 | a reply consumes at least one line and no more lines than there are |
| ConsoleUtils.AskInput | console_utils.py:16-25 | the prompt loop returns the reply InputReply specifies, with the number of lines it read |
| ConsoleUtils.InputReplyMeaning | console_utils.py:20-25 | a non-blank line is returned stripped; a blank line returns the default if there is one and otherwise re-prompts; input runs out without a reply only when there is no default and every line is blank, or when there are no lines |
| ConsoleUtils.InputReplyEmpty | console_utils.py:20-25 | the reply is '' only when the default is '' |
| Scaner.Scaner.Scan | scaner/scaner.py:8-18 | scanning yields nothing exactly when the root is not a folder, and otherwise yields the root first |
| Scaner.ScanSound | scaner/scaner.py:12-18 | every yielded path is a folder at or below the root, at most max_depth - depth levels down; so a scan with max_depth 0 yields only the root, and a file is never yielded |
| Scaner.ScanEachSound | scaner/scaner.py:16-18 | everything yielded for the entries of a folder lies below one of those entries, within the remaining depth |
| Scaner.ScanOrdered | scaner/scaner.py:15-18 | pre-order with sorted siblings: each yielded path precedes every later one in the order "ancestor first, then by the first differing name" |
| Scaner.ScanEachOrdered | scaner/scaner.py:15-18 | the walks of sorted entries follow one another in that order; each entry's whole subtree comes before the next sibling |
| Scaner.ScanDistinct | scaner/scaner.py:12-18 | no folder is yielded twice |
| Scaner.ScanComplete | scaner/scaner.py:12-18 | every folder within max_depth - depth levels of the root whose ancestors down from the root are all folders is yielded |
| Scaner.ScanEachContains | scaner/scaner.py:16-18 | whatever the walk of one entry yields, the walk of all the entries yields too |
| Scaner.DefaultScanDepth | scaner/scaner.py:5-6 | with the default cap of 5, nothing more than five levels below the root is yielded |
| Order.SortedNamesFacts | scaner/scaner.py:15 | sorted() of a set of names lists each name exactly once, in strictly increasing str order |
| Text.StripFacts | console_utils.py:21 | after str.strip neither end is whitespace; a string with no whitespace at either end is returned unchanged; the result is '' exactly when the input is all whitespace; no character is added |
| Text.StripIdempotent | renamer.py:109 | stripping twice is stripping once |
| Text.ContainsIff | renamer.py:64 | the `in` test on strings holds exactly when the pattern occurs at some position |
| Text.NatToStringValue | renamer.py:212 | str() of a non-negative int is a string of digits denoting that number |
| Text.ParseIntToString | renamer.py:212-214 | int(str(n)) == n, so the disc prompt's default reads back as the counter |
| FileSystem.ChildNames | renamer.py:198 | the names os.listdir returns are exactly the names of the entries directly inside the folder |
| FileSystem.ListDir | renamer.py:198 | os.listdir succeeds exactly on a folder |
| FileSystem.MakeDir | renamer.py:140 | os.mkdir succeeds only on a missing path, and it adds exactly that folder |
| FileSystem.ReadFile | renamer.py:175-176 | reading succeeds exactly on a regular file |
| FileSystem.CopyFile | renamer.py:234 | a successful copy requires a regular-file source distinct from the destination, and makes the destination an exact copy of the source, with nothing else changed |
| FileSystem.SavedTags | renamer.py:159-171 | after the tags are opened, set and saved, every field is the one written, except that a subtitle of None is not set, so the file's own subtitle stays; a file without tags gets exactly the fields written |
| FileSystem.SavedTagsIdempotent | renamer.py:159-171 | saving the same fields a second time leaves the tags as the first save did |
| FileSystem.SetTags | renamer.py:159-171 | a successful tag save requires a regular file and alters only that file's tags, which become the written fields saved over the tags it had |
| FileSystem.AddPicture | renamer.py:178-195 | embedding a picture keeps every other entry, and the file's bytes and tags; an MP3 or FLAC file's pictures become its old pictures followed by the new one, and any other format is left unchanged |
| Naming.ReservedTable | renamer.py:27-28 | the reserved characters are exactly those of the pattern's class and of the translation table: \ / : * ? " < > \| |
| Naming.ToFullwidth | renamer.py:28-29 | each reserved character maps to the fullwidth character at the same position of the table; other characters are kept; the result is never reserved |
| Naming.Translate | renamer.py:103-105 | fullwidth mode replaces characters one for one, keeps the length, and leaves no reserved character |
| Naming.DeleteReserved | renamer.py:106-107 | delete mode leaves no reserved character, and leaves a clean name unchanged |
| Naming.DeleteReservedKeeps | renamer.py:106-107 | delete mode keeps every other character, as often as it occurs |
| Naming.DeleteReservedAppend | renamer.py:106-107 | deletion works piece by piece, so the kept characters stay in their order |
| Naming.CompileNewName | renamer.py:96-109 | in both modes the new name has no reserved character and no surrounding whitespace |
| Naming.CompileNewNameIdempotent | renamer.py:96-109 | sanitizing a sanitized name changes nothing, in either mode |
| Naming.CloseIndex | renamer.py:75 | the lazy `.*?` stops at the first '】', and only if no line feed comes before it; when it finds no end, every '】' has a line feed before it |
| Naming.CloseIndexAt | renamer.py:75 | after '【', text without '】' or a line feed, then '】', closes the match exactly at that '】' |
| Naming.RemoveBracketSpans | renamer.py:75 | re.sub never lengthens the name, and a name with no 【…】 span is returned unchanged |
| Naming.UnclosedSpanKept | renamer.py:75 | a '【' whose span is broken by a line feed stays, and a later span is still removed: `【a\n【b】` becomes `【a\n` |
| Naming.RemovePlainPrefix | renamer.py:75 | the text before the first '【' is kept as it is, and re.sub goes on after it |
| Naming.RemoveLeadingSpan | renamer.py:75 | a complete 【…】 span at the front is cut out, and only that span |
| Naming.CleanupWorkName | renamer.py:74-78 | with the flag off the work name is returned unchanged; with it on, the result contains no 【…】 span and has no surrounding whitespace, and a name without '【' is only stripped |
| Naming.CleanupDropsSpan | renamer.py:74-78 | with the flag on, x【body】y becomes x + y stripped: the span goes and the text on both sides of it is kept |
| Naming.RemoveLeavesNoSpan | renamer.py:75 | after re.sub no 【…】 span is left anywhere |
| Naming.CleanupIdempotent | renamer.py:74-78 | cleaning a cleaned name changes nothing |
| Naming.RemovesEverySpan | renamer.py:75 | every span is removed, not only the first: 【A】x【B】 becomes x |
| Naming.FileGroupEnd | renamer.py:115 | when the title group ends at e, a '.' follows it, then one or more word characters reaching the end |
| Naming.SniffName | renamer.py:111-117 | a title found is non-empty and has no line feed, and the name has an extension; for a name without line feeds, a title exists exactly when the extension's '.' is not the first character, and the title is the text just before that '.' |
| Naming.SniffNameFromFolder | renamer.py:119-125 | a title found is non-empty and has no line feed; for a name without line feeds, there is a title exactly when the name is not empty, and the title is an end part of the name |
| Naming.SniffFrom | renamer.py:115-117 | any title found is non-empty, has no line feed, and the name has an extension |
| Naming.SniffFolderFrom | renamer.py:123-125 | any folder title found is non-empty and has no line feed |
| Naming.FileGroupEndNoLineFeed | renamer.py:115 | on a name without line feeds, the group can only end at the dot that starts the extension |
| Naming.SniffNameNoLineFeed | renamer.py:111-117 | on a name without line feeds, a title exists exactly when the name ends in '.' and word characters with something before the '.'; the title runs from the end of the skipped number-and-separator prefix, or from just before the '.', up to the '.' |
| Naming.SniffFolderNoLineFeed | renamer.py:119-125 | the folder title is the name after its number-and-separator prefix (its last character when the prefix is the whole name), and there is no title only for the empty name |
| Naming.PrefixEndOfNumbered | renamer.py:115 | `^\d*[_\.、\s]*` consumes exactly the digits and the separators of a numbered name |
| Naming.SniffNameStripsPrefix | renamer.py:115-117 | digits + separators + title + '.' + extension yields exactly that title |
| Naming.SniffFolderStripsPrefix | renamer.py:123-125 | digits + separators + title yields exactly that title |
| Naming.SniffNumberOnlyName | renamer.py:115-117 | a file named by its number alone keeps the number's last digit as its title, because the regex backtracks |
| TagSelection.UnmatchedMembers | renamer.py:90-92 | the remaining tags are exactly the work tags not among the matched sources |
| TagSelection.UnmatchedAppend | renamer.py:90-92 | the remaining tags are taken in the work's order, repeated tags included: those of a + b are those of a, then those of b |
| TagSelection.SelectTags | renamer.py:80-94 | a non-negative max_number bounds the number of genres |
| TagSelection.SelectTagsRulesFirst | renamer.py:80-94 | when max_number leaves room for them, the outputs of the applying rules lead the selection, in rule order |
| TagSelection.SliceTo | renamer.py:93 | `[:n]` is a prefix of length min(n, len) for n >= 0, and drops the last -n elements for a negative n |
| TagSelection.ReplaceTags | renamer.py:80-94 | the two loops build the rule outputs, then the unmatched tags, cut to max_number: the list SelectTags defines |
| TagSelection.RuleOutputMembers | renamer.py:83-89 | a tag is emitted by the rules exactly when some applying rule outputs it: a string rule itself, a [src, repl] rule its repl |
| TagSelection.RuleSourcesMembers | renamer.py:83-89 | a source is marked matched exactly when some applying rule has it as its source |
| TagSelection.SelectTagsMembers | renamer.py:80-94 | every selected genre is the output of an applying rule, or a work tag that no applying rule claims |
| TagSelection.SelectTagsBound | renamer.py:93 | never more genres than max_number |
| TagSelection.AllRulesApply | renamer.py:83-89 | rules are walked in order: when all apply, the outputs are theirs, one per rule, in rule order |
| TagSelection.RuleOutputAppend | renamer.py:83-89 | walking a + b emits what walking a emits, then what walking b emits |
| TagSelection.AbsentRuleIgnored | renamer.py:83-89 | a rule whose tag the work lacks emits nothing: removing it leaves the selection unchanged |
| TagSelection.NoRuleApplies | renamer.py:80-94 | when no rule applies, the selection is the work's tags in their order, cut to max_number |
| Renaming.NewRenamer | renamer.py:54-72 | construction succeeds exactly when the template contains 'rjcode', and then keeps every setting as given; otherwise it fails with the ValueError case |
| Renaming.DefaultTemplateAccepted | renamer.py:58 | the default template contains 'rjcode', so a Renamer built with it is accepted |
| Renaming.Renamer.WorkFolder | renamer.py:138-141 | the work folder lies below dest, and so does the maker folder |
| Renaming.Renamer.MkdirSpec | renamer.py:137-144 | on success the result is dest/sanitized maker/sanitized cleaned-up work name, and that path exists; no existing entry is altered or removed; the only entries added are the maker folder and the work folder |
| Renaming.Renamer.MkdirExisting | renamer.py:139-143 | when both folders exist already, nothing changes |
| Renaming.Renamer.MkdirBelow | renamer.py:137-144 | everything __mkdir adds lies below dest |
| Renaming.Renamer.Mkdir | renamer.py:137-144 | the two checked os.mkdir calls do what MkdirSpec says, failure included |
| Renaming.EnsureDir | renamer.py:139-140 | after success the path exists; nothing existing is altered; only that path, as a folder, can be added |
| Renaming.DownloadCover | renamer.py:146-156 | success exactly when the file can be created and the request completes, and then cover.jpg holds the body; every failure raises the cover-download error for that URL and path; only cover.jpg may be added or altered |
| Renaming.KindOf | renamer.py:178-195 | a file is handled as MP3 exactly when its name ends in '.mp3', and as FLAC exactly when it ends in '.flac' |
| Renaming.EmbedCover | renamer.py:173-195 | with no cover file nothing happens; otherwise only dst changes: an MP3 or a FLAC gains the cover as one more picture after those it already had, any other format is left as it was, and its bytes and tags are kept |
| Renaming.Renamer.TrackTags | renamer.py:158-171 | the title and subtitle as given; the voice actors as artist; the maker as album artist; the release date; the cleaned-up work name as album; exactly `https://www.dlsite.com/maniax/work/=/product_id/` + code + `.html` as website; the selected genres, at most max_number of them; and track and disc numbers as their str() digits, which int() reads back as the numbers |
| Renaming.CopyTrack | renamer.py:230-237 | only the copy target/name is added or altered; on success the source was a regular file and the copy holds its bytes and the given tags saved over the source's tags, so a None subtitle keeps the source's subtitle |
| Renaming.CopyTracks | renamer.py:229-237 | the copy loop adds or alters only target/name for the names of the group |
| Renaming.TrackNumbered | renamer.py:229-236 | when the loop completes over distinct names, the i-th file is in the target folder carrying the i-th tags saved over the tags of its source file |
| Renaming.AudioFiles | renamer.py:202-203 | the group is exactly the listed regular files whose name ends in '.' + extension, in strictly increasing order |
| Renaming.ChooseDisc | renamer.py:212-216 | a chosen disc number consumes one or more lines; the prompt goes unanswered exactly when the input has run out |
| Renaming.ChooseDiscReply | renamer.py:212-216 | one line is read; a reply int() accepts becomes the disc number; any other reply, a blank line included, keeps the counter |
| Renaming.GroupPrompts | renamer.py:207-225 | a decision consumes at least one line and no more lines than there are |
| Renaming.TakePrompts | renamer.py:211-225 | after a yes, a decision is always to take the files, under a disc number and a subtitle |
| Renaming.ChooseSubtitle | renamer.py:219-225 | a chosen subtitle consumes at least one line and no more lines than there are |
| Renaming.SubtitleReply | renamer.py:219-225 | a yes keeps the title sniffed from the folder name; after a no, the next line is the subtitle, stripped, and a blank line means no subtitle |
| Renaming.Renamer.AskGroup | renamer.py:207-225 | the prompts for one group return what GroupPrompts specifies |
| Renaming.Renamer.AskTake | renamer.py:211-225 | the disc and subtitle prompts return what TakePrompts specifies |
| Renaming.Renamer.AskDisc | renamer.py:212-216 | the disc prompt returns what ChooseDisc specifies |
| Renaming.Renamer.AskSubtitle | renamer.py:219-225 | the subtitle prompts return what ChooseSubtitle specifies |
| Renaming.Renamer.ProcessGroup | renamer.py:200-239 | one extension group adds or alters only children of the target folder |
| Renaming.Renamer.CopyGroup | renamer.py:228-239 | copying a taken group adds or alters only children of the target folder |
| Renaming.Renamer.GroupSkipped | renamer.py:204-209 | a group with no files, or one the user declines, changes no file and keeps the counter; a group with no files reads no line, and a declined group reads exactly the lines of the yes/no reply |
| Renaming.Renamer.GroupTaken | renamer.py:211-239 | a taken group that completes has its files, in sorted order, in the target folder as tracks 1..N; each has the chosen disc number and the title sniffed from its name, and the chosen subtitle when there is one, otherwise the subtitle its source file already had; the counter becomes the chosen number + 1 |
| Renaming.Renamer.CopyFiles | renamer.py:229-237 | the copy loop, with track numbers counted from index + 1, does what CopyTracks says with the group's tags |
| Renaming.Renamer.HandleGroup | renamer.py:200-239 | one pass of the extension loop does what ProcessGroup says |
| Renaming.Renamer.ProcessGroups | renamer.py:200-239 | the groups in turn add or alter only children of the target folder |
| Renaming.Renamer.ProcessFolderSpec | renamer.py:197-240 | __process_folder lists the folder once, then handles flac before mp3, and adds or alters only children of the target folder |
| Renaming.Renamer.ProcessFolder | renamer.py:197-240 | the loop over the extensions does what ProcessFolderSpec says, threading the console and the counter |
| Renaming.Renamer.ProcessSources | renamer.py:278-279 | the scanned folders of a work, in scan order, add or alter only children of the target folder |
| Renaming.Renamer.ProcessFolders | renamer.py:277-279 | the loop over the scanned folders starts the counter at 1 and does what ProcessSources says |
| Renaming.Renamer.RunStages | renamer.py:270-282 | when no stage fails, all three stages ran |
| Renaming.WorkLog | renamer.py:271-284 | a work logs at least three records, and the last one is the failure at error level or the success at info level |
| Renaming.Renamer.ProduceWork | renamer.py:270-284 | the work's records follow those already logged; a success logs processing, creating folders, downloading the cover, starting the interactive stage and renamed, in that order; a failure leaves the console as it was |
| Renaming.Renamer.ProduceWorkBelow | renamer.py:270-279 | the later stages of a work add or alter only entries below dest |
| Renaming.Renamer.ProduceWorkLog | renamer.py:270-284 | the later stages of a work extend the log, ending with the failure at error level or the success |
| Renaming.Renamer.Produce | renamer.py:270-284 | the body of the try block does what ProduceWork says, the failure that ends it included |
| Renaming.Renamer.ProcessWork | renamer.py:245-284 | one folder of the loop adds or alters only entries below dest, and only appends to the log |
| Renaming.Renamer.NoCodeSkipped | renamer.py:246-248 | a folder whose name yields no product code changes nothing: no scrape, no folder, no download, no prompt, no log |
| Renaming.Renamer.ScrapeFailureLogged | renamer.py:250-268 | a failed scrape appends the folder-found record and one more, at warning level for a timeout, a connection error or an HTTP error and at error level for any other request error; the file system, the console and the run's outcome are untouched, so the loop goes on |
| Renaming.Renamer.RenameWork | renamer.py:245-284 | the body of the loop in rename does what ProcessWork says |
| Renaming.Renamer.RenameFolders | renamer.py:245-284 | once a failure is raised nothing more happens; everything added or altered lies below dest; the log only grows |
| Renaming.Renamer.RenameSpec | renamer.py:242-284 | rename(root, dest) adds or alters only entries below dest |
| Renaming.Renamer.Rename | renamer.py:242-284 | the loop over the scanned folders, stopping at the first raised failure, does what RenameSpec says |
| Renaming.CopyDestinationAbsolute | renamer.py:232-234 | for an absolute target folder the doubled join names the same file as target/name |
| Renaming.CopyDestinationRelative | renamer.py:232-234 | for a relative target folder the doubled join names target/target/name, not target/name |
| Renaming.CopyTrackAsWritten | renamer.py:232-237 | for an absolute target folder the code as written does exactly what the corrected CopyTrack does |
| Renaming.RelativeTargetFails | renamer.py:232-237 | with a relative target folder, processing a new file as written always raises |

## Left out

- Logging: the handler setup at renamer.py:32-48 and the wording of the messages are left out. The model keeps the level, the code and the kind of each record. The debug records are left out, and so are the `print` calls.
- Python generators: the scanner's generator is modelled as the list it yields, taken when the walk starts. The source lists each folder only when the walk reaches it. Changes made to the walked tree during the walk are therefore not reflected, which matters only when dest lies inside a scanned folder.
- Path strings: `os.path.normpath`, `..`, repeated separators and symbolic links are left out. A path is a flag plus a list of components.
- Unicode in regexes: `\d` and `\w` are limited to ASCII, while Python's str patterns also accept other Unicode digits and letters. `\s` and `str.strip` use Python's full whitespace set.
- `int()` edge cases: underscores between digits and non-ASCII digits are not accepted by the model's `int()`.
- mutagen: the tag containers, `save()` and the EasyID3/Vorbis key mapping are left out. A file's tags are one `AudioTags` value, and its pictures are a list of byte strings. Tag keys outside `AudioTags` that a source file carries (comments, composer and the like) are not modelled; `__write_tag` leaves them on the copy. Assigning `file['APIC']` on an MP3 stores the new frame under the bare key `APIC`; a picture the copy brought from its source was loaded under `APIC:<desc>`, so the model keeps it and appends the cover, as for FLAC.
- Unreadable audio files: saving tags succeeds on any regular file. The case where `mutagen.File` returns None for a corrupt file, which makes `__write_tag` raise, is not modelled.
- The cover request: the HTTP request is the `download` service, which yields the whole body or a partial body. Network errors are only that second case.
- Scraper exceptions: an exception that is not a request error is left out.
- `__rename` (renamer.py:127-135): it is never called, so it is left out.
- `template` and `delimiter` are stored by the constructor, but the core never uses them, so the model only stores them.
- `tags_option` of None is left out: the model always has a tags option, as main.py always passes one.
- Malformed ordered-list entries are left out: an entry is either a tag or a [source, replacement] pair.
- Unread console lines after a failure: the console is left as it was before the failing work's prompts.
- `Dlsite.parse_rjcode`: it lives in the scraper package, which is not part of this model, so it is the `parseCode` service. An empty code is treated like a missing one.
- Calling `rename` with one argument (main.py:79): this would raise a TypeError against the two-parameter signature at renamer.py:242. main.py is not part of this model, so this is left out.
- Renaming.Renamer.RenameSpec: it states only the frame (below dest). The rest of a run is characterised member by member, by ProcessWork and the lemmas about it.
- Renaming.CopyTrack, Renaming.CopyTracks, Renaming.TrackNumbered, Renaming.Renamer.CopyFiles, Renaming.Renamer.GroupTaken, Renaming.Renamer.ProcessFolder, Renaming.Renamer.Rename and every other member built on CopyTrack (CopyGroup, ProcessGroup, HandleGroup, ProcessGroups, ProcessFolderSpec, ProcessSources, ProcessFolders, ProduceWork, ProduceWorkBelow, Produce, ProcessWork, RenameWork, RenameFolders): they copy each file to target/name, which is the corrected destination of the Findings row. The code as written copies to the doubled join at renamer.py:234. It agrees with the model only when dest is absolute (CopyDestinationAbsolute, CopyTrackAsWritten). With a relative dest the code raises at the first new file (RelativeTargetFails), while the model's run completes.
- Renaming.KindOf: mutagen picks MP3 or FLAC from the file's content. The model takes the format from the file name's extension, which agrees for well-formed files.
- A missing title: `__sniff_name` returns None for a name such as `.flac`, and `__write_tag` then sets `file['title'] = None`. The model stores the title as absent and lets the save succeed. Whether mutagen accepts None there is not modelled.
- Renaming.CopyTracks: it states only which entries may change. The content of the copied files is stated by TrackNumbered under the condition that the names are distinct, which AudioFiles guarantees.

Notes on the source:

- `re.sub` at renamer.py:75 removes every 【…】 span, not only the first one.
- renamer.py:161 sets the artist tag to the scraped list of voice actors, not to a string joined with the delimiter.
- renamer.py:281-283 logs an exception in the later stages of a work and re-raises it, so it ends the run; the `continue` after `raise err` is unreachable.

## Findings

| source | as written | input that shows it | evidently intended | confidence | as-written member | corrected member |
|---|---|---|---|---|---|---|
| renamer.py:232-234 | the file is copied to `os.path.join(target_path, target_file)`, where `target_file` is already `os.path.join(target_path, name)`; tags and the cover are then written to `target_file` | a relative destination `out`: target_path is `out/maker/work`, the copy goes to `out/maker/work/out/maker/work/name`, whose folder normally does not exist, so the copy itself raises; if that folder does exist, `__write_tag` opens `out/maker/work/name`, which was never created, and raises. Either way the work fails | copy to `target_file`, the file then tagged | not executed | Renaming.RelativeTargetFails | Renaming.CopyTrack |
