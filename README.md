# To-do CLI task store, modelled in Dafny

A model of a small to-do command line program (`src/main.rs`). The program
keeps one backing file, `~/.todo/list.todo`, and every invocation runs one
command on it:

- `todo add <task>` appends the task as a new line (no separator when the
  file is empty or absent);
- `todo remove <index>` parses a 1-based `usize` index, splits the content on
  `"\n"`, drops empty lines, deletes the selected line and writes the rest back
  joined by `"\n"`;
- `todo clear` deletes the file, which is an I/O error when it is absent;
- `todo list` prints "No tasks" for an absent file, otherwise a header and every
  piece of `content.split("\n")`, empty ones included, numbered from 1;
- any other first argument prints "Unknown command: …", and no argument prints
  the usage text.

The backing file is an `Option<string>` (`None` = absent). A run produces an
`Effect`: the new file, the lines printed (one per `println!`/`eprintln!`) and
how `main` ends: `Ok`, an `io::Error` returned through `?` (`IoErr(NotFound)`,
only from `clear`), or a panic (`Panic(message)`, only from `remove`, with the
file untouched since nothing was written).

Files:

- `options.dfy` — `Option`.
- `text.dfy` — `Split` (`str::split("\n")`), `Join` (`join("\n")`), `NonEmpty`
  (the empty-line filter), `RemoveAt` (`Vec::remove` on values) and their
  round-trip lemmas.
- `decimal.dfy` — `ParseUsize` (`usize`'s `FromStr`: an optional `+`, then one
  or more decimal digits, refused above `usize::MAX`) and `NatToString`
  (`usize`'s `Display`).
- `commands.dfy` — each command as a function of the file and the argument
  vector, and `Dispatch`, the `match` of `main`.
- `store.dfy` — the class `Store` holding the file, with the methods `Add`,
  `Remove`, `Clear`, `List` and `Run`; each is proved to produce exactly the
  effect of the matching function. `Remove` collects the non-empty lines in a
  loop and `List` emits the numbered lines in a loop, as the program does.
- `properties.dfy` — properties of runs of several commands.

Decisions where the program leaves room:

- `usize` is 64 bits wide.
- The model follows a build with overflow checks (the default debug build):
  `remove 0` panics at `task_index - 1` before the file is read. In a release
  build the subtraction wraps and the later `Vec::remove` panics instead (or
  "No tasks" is printed first when the content is empty); either way index 0
  never removes anything.
- Removing the last task does not delete the file: the program writes an empty
  file, and `list` then prints the header and a blank entry `1. ` rather than
  "No tasks" (`Properties.RemoveOnlyTask`).
- `list` keeps empty pieces and `remove` drops them, so with a blank line in the
  file the two number the tasks differently (`Properties.ListShowsBlank`,
  `Properties.RemoveSkipsBlank`); without one they agree
  (`Properties.RemoveDeletesListed`).
- The `lines.is_empty()` branch of `list` is modelled as written; it is dead,
  because a split always yields one piece more than there are separators
  (`Text.Split`, `Commands.ListCmd`).

## Model

| member | source | states |
|---|---|---|
| `Text.Split` | src/main.rs:113 | the pieces of `split("\n")`: one more than the separators (so never empty), none holding a separator |
| `Text.Join` | src/main.rs:89 | `lines.join("\n")` starts with the first line, and joining n newline-free lines puts exactly n - 1 separators in the content |
| `Text.SplitSeparator` | src/main.rs:50 | a separator splits a string into the pieces before it followed by the pieces after it |
| `Text.NonEmpty` | src/main.rs:82-85 | the collected filter keeps only non-empty lines, each taken from the input, and keeps every non-empty input line |
| `Text.RemoveAt` | src/main.rs:87 | `Vec::remove(i)`: one element fewer, the elements before `i` unchanged, those after shifted down by one, the same multiset minus the removed element |
| `Text.JoinSplit` | src/main.rs:82-89 | joining the split pieces with `"\n"` gives back the original content |
| `Text.SplitJoin` | src/main.rs:82-89 | splitting the join of one or more newline-free lines gives back those lines |
| `Text.SplitAppend` | src/main.rs:50 | appending `"\n"` and a newline-free task adds exactly that task as the last piece |
| `Text.NonEmptyConcat` | src/main.rs:84 | the filter distributes over concatenation, so it keeps relative order |
| `Text.NonEmptyKeeps` | src/main.rs:84 | the filter leaves a list of non-empty lines unchanged |
| `Text.JoinTasks` | src/main.rs:82-89 | non-empty newline-free lines survive join, split and filter, also when there are none |
| `Text.RemoveWriteBack` | src/main.rs:82-91 | after deleting one line and writing back, the lines `remove` would read next are exactly the remaining ones |
| `Decimal.NatToString` | src/main.rs:121 | the printed position is digits only, denotes the number and has no leading zero |
| `Decimal.ParseUsize` | src/main.rs:65 | a successful parse is at most `usize::MAX` |
| `Decimal.ParseFormat` | src/main.rs:65 | every printed number up to `usize::MAX`, with or without a leading `+`, parses back to itself |
| `Decimal.ParseOverflow` | src/main.rs:65 | a number above `usize::MAX` is refused, not wrapped |
| `Decimal.ParseRejects` | src/main.rs:65 | a character other than a digit (or a leading `+`) makes the parse fail |
| `Decimal.ParseLeadingZero` | src/main.rs:65 | leading zeros, with or without a leading `+`, do not change the parsed index |
| `Decimal.ParseNeedsDigits` | src/main.rs:65 | an empty argument and a lone `+` are refused: at least one digit is needed |
| `Decimal.ParseDigit` | src/main.rs:65 | a one-digit argument parses to that digit |
| `Commands.Content` | src/main.rs:42-45 | the content read is the file's content when it exists and "" when it is absent, so an absent and an empty file read the same |
| `Commands.Appended` | src/main.rs:47-51 | on empty content the new content is the task; otherwise its split is the old split followed by the split of the task, which for a newline-free task is the old split plus the task |
| `Commands.Tasks` | src/main.rs:82-85 | `remove`'s lines are non-empty and newline-free, number at most the separators plus one, and are none for empty content |
| `Commands.Entry` | src/main.rs:121 | a listing line is the position's digits, which read back to the position, then ". ", then the line |
| `Commands.RemovalPanic` | src/main.rs:87 | the panic message starts with "removal index (is ", followed by digits that read back to the index, and ends with the length and ")" |
| `Commands.Numbered` | src/main.rs:120-122 | one entry per line, the i-th being `"{i+1}. {line}"` |
| `Commands.EntryInjective` | src/main.rs:121 | two listing entries are equal only for the same position and the same line |
| `Commands.AddCmd` | src/main.rs:35-58 | no task argument: message, file unchanged; otherwise the appended content is written; always `Ok` |
| `Commands.RemoveCmd` | src/main.rs:60-94 | missing index, bad format and empty file print their message and leave the file; index 0 panics with the subtraction-overflow message and an index past the non-empty lines with `Vec::remove`'s message naming the index and the length, printing nothing and leaving the file; an index in range writes exactly the remaining non-empty lines joined by "\n", so blank lines and a trailing separator disappear from the file too |
| `Commands.ClearCmd` | src/main.rs:96-100 | the file is absent afterwards; the result is `Ok` exactly when it existed, `NotFound` otherwise |
| `Commands.ListCmd` | src/main.rs:102-125 | absent file: "No tasks"; otherwise the header and every split piece numbered from 1 (never the second "No tasks"); the file is unchanged |
| `Commands.Dispatch` | src/main.rs:6-33 | "add", "remove", "clear" and "list" each run exactly their command; no argument: usage; unknown command: message, file unchanged; only add/remove/clear change the file; only clear returns an error; only remove panics, leaving the file |
| `TodoStore.Store.Add` | src/main.rs:35-58 | the new file, output and status are those of `AddCmd` on the old file |
| `TodoStore.Store.Remove` | src/main.rs:60-94 | the new file, output and status are those of `RemoveCmd` on the old file |
| `TodoStore.Store.Clear` | src/main.rs:96-100 | the new file, output and status are those of `ClearCmd` on the old file |
| `TodoStore.Store.List` | src/main.rs:102-125 | the output and status are those of `ListCmd` on the file |
| `TodoStore.Store.Run` | src/main.rs:6-33 | the new file, output and status are those of `Dispatch` on the old file |
| `Properties.AddAllSplit` | src/main.rs:47-51 | adds of newline-free tasks to an absent file store exactly those tasks as lines (the first non-empty when more follow) |
| `Properties.AddsThenList` | src/main.rs:113-122 | adds of T1..Tn then `list` print the header and T1..Tn numbered from 1, in order |
| `Properties.EmptyFirstTaskLost` | src/main.rs:47-51 | an empty first task is overwritten by the next add |
| `Properties.AddExtendsTasks` | src/main.rs:47-51 | after `add t` the non-empty lines are the old ones plus `t` |
| `Properties.AddThenRemove` | src/main.rs:82-89 | `remove n+1` right after an add to a file with n non-empty lines restores those lines |
| `Properties.RemoveThenList` | src/main.rs:82-91 | after an in-range remove, `list` prints the header and exactly the remaining lines numbered from 1, or one blank entry when none remain |
| `Properties.ListOfJoin` | src/main.rs:113-122 | listing a file written as the join of newline-free lines shows those lines, or one blank entry when there are none |
| `Properties.RemoveDeletesListed` | src/main.rs:82-87 | with no blank lines, `remove k` deletes the k-th entry `list` shows, the others keeping their order |
| `Properties.SplitWithBlank` | src/main.rs:113 | a blank line between two tasks is a piece of its own |
| `Properties.ListShowsBlank` | src/main.rs:113-122 | `list` numbers a blank line as an entry |
| `Properties.TasksWithBlank` | src/main.rs:82-85 | `remove` does not count a blank line |
| `Properties.RemoveSkipsBlank` | src/main.rs:82-87 | so `remove 2` deletes the entry `list` shows as 3 |
| `Properties.RemoveOnlyTask` | src/main.rs:89-91 | removing the only task writes an empty file, which `list` shows as a blank entry |
| `Properties.ClearThenList` | src/main.rs:96-108 | after `clear`, `list` prints "No tasks" and another `clear` fails with `NotFound` |

## Left out

- The home directory (`env::var("HOME")` and the path built from it): the store is one implicit location.
- Filesystem calls (`read_to_string`, `File::create`, `write_all`, `create_dir_all`, `remove_file`, `File::open`) are reads and writes of the `Option<string>` field; their failures (permissions, full disk, a directory in the way) are not modelled. Only `remove_file` on an absent file is, as `IoErr(NotFound)`.
- UTF-8 decoding failures on read: content is an abstract string. The program treats any failed `read_to_string` as empty content in `add` and `remove`; in `list` only a failed `File::open` prints "No tasks", while a failed read after a successful open is an error `main` returns. That error path of `list` is not modelled.
- Standard output versus standard error, and the text the Rust runtime prints for a returned error or a panic: output is the sequence of printed messages, and the panic message is carried in the status.
- Release-build wrap-around of `task_index - 1` (see above): the model follows the overflow-checked build.
- Concurrency between invocations (last writer wins): each command is one atomic step on the value.
- Projects, the `-p` modifier, `--help`/`-h` and space-to-underscore normalisation do not exist in this program and are not modelled.
