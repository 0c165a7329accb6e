/**
 * The commands of the to-do CLI as functions of the backing file
 * `~/.todo/list.todo`. The file is `None` when absent and `Some(content)`
 * otherwise; a run yields the new file, the lines it prints (one per
 * `println!`/`eprintln!`) and how `main` ends.
 */
module Commands {
  import opened Options
  import opened Text
  import opened Decimal

  datatype IoError = NotFound

  /** `main` returns `Ok(())`, propagates an `io::Error` through `?`, or the process panics. */
  datatype Status = Ok | IoErr(error: IoError) | Panic(message: string)

  datatype Effect = Effect(file: Option<string>, out: seq<string>, status: Status)

  const Usage := "Usage: todo {command} {task-name} {modifiers}\n\nAvailable commands:\n\nadd\nremove\nlist\nclear"
  const NoTaskName := "No task name given"
  const NoIndex := "No index given"
  const InvalidIndex := "Invalid index format"
  const NoTasks := "No tasks"
  const Header := "Tasks:\n"
  const SubtractOverflow := "attempt to subtract with overflow"
  const RemovalPrefix := "removal index (is "

  function UnknownCommand(comm: string): string {
    "Unknown command: " + comm
  }

  /** The message of `Vec::remove` when the index is past the end. */
  function RemovalPanic(index: nat, len: nat): (r: string)
    ensures var p, k := |RemovalPrefix|, |NatToString(index)|;
            p + k <= |r| && r[..p] == RemovalPrefix && AllDigits(r[p..p + k]) && DigitsValue(r[p..p + k]) == index
    ensures |NatToString(len)| + 1 <= |r| && r[|r| - |NatToString(len)| - 1..] == NatToString(len) + ")"
  {
    var head := RemovalPrefix + NatToString(index) + ") should be < len (is ";
    var tail := NatToString(len) + ")";
    var r := head + tail;
    assert r[|RemovalPrefix|..|RemovalPrefix| + |NatToString(index)|] == NatToString(index);
    assert r[|head|..] == tail;
    r
  }

  /** `fs::read_to_string`, with every error read as "". */
  function Content(file: Option<string>): (r: string)
    ensures file.Some? ==> r == file.value
    ensures r == "" <==> file == None || file == Some("")
  {
    match file
    case None => ""
    case Some(c) => c
  }

  /**
   * The content `add` writes: the task alone on an empty store, otherwise
   * the old content, a separator and the task, so that the task becomes
   * one more line at the end.
   */
  function Appended(content: string, task: string): (r: string)
    ensures content == "" ==> r == task
    ensures content != "" ==> Split(r) == Split(content) + Split(task)
    ensures content != "" && NoNewline(task) ==> Split(r) == Split(content) + [task]
  {
    if content == "" then task
    else
      var r := content + "\n" + task;
      SplitSeparator(content, task);
      assert NoNewline(task) ==> Split(task) == [task] by {
        if NoNewline(task) { SplitLine(task); }
      }
      r
  }

  /** The task lines as `remove` sees them: the split pieces with the empty ones dropped. */
  function Tasks(content: string): (r: seq<string>)
    ensures AllNonEmpty(r) && AllNoNewline(r)
    ensures |r| <= CountNewlines(content) + 1
    ensures content == "" ==> r == []
  {
    NonEmptyNoNewline(Split(content));
    assert Split("") == [""] && NonEmpty([""]) == NonEmpty([]) == [];
    NonEmpty(Split(content))
  }

  /** One line of `list`: `"{i+1}. {line}"`. */
  function Entry(position: nat, line: string): (r: string)
    ensures var k := |NatToString(position)|;
            k + 2 <= |r| && AllDigits(r[..k]) && DigitsValue(r[..k]) == position &&
            r[k..k + 2] == ". " && r[k + 2..] == line
  {
    var r := NatToString(position) + ". " + line;
    assert r[..|NatToString(position)|] == NatToString(position);
    r
  }

  /** Every line numbered from 1, in order. */
  function Numbered(lines: seq<string>): (r: seq<string>)
    ensures |r| == |lines|
    ensures forall i :: 0 <= i < |lines| ==> r[i] == Entry(i + 1, lines[i])
  {
    seq(|lines|, i requires 0 <= i < |lines| => Entry(i + 1, lines[i]))
  }

  /**
   * `add`: without a task argument it prints an error and writes nothing;
   * otherwise it writes the appended content. It always returns `Ok`.
   */
  function AddCmd(file: Option<string>, args: seq<string>): (r: Effect)
    ensures r.status == Ok
    ensures |args| <= 2 ==> r.file == file && r.out == [NoTaskName]
    ensures |args| > 2 ==> r.out == [] && r.file.Some? && r.file.value == Appended(Content(file), args[2])
  {
    if |args| <= 2 then Effect(file, [NoTaskName], Ok)
    else Effect(Some(Appended(Content(file), args[2])), [], Ok)
  }

  /** The 1-based index `remove` is given, when it is present and a valid `usize`. */
  function IndexArg(args: seq<string>): Option<nat> {
    if |args| <= 2 then None else ParseUsize(args[2])
  }

  /** `remove k` succeeds exactly when 1 <= k <= the number of non-empty lines. */
  predicate Removable(file: Option<string>, args: seq<string>) {
    IndexArg(args).Some? && 1 <= IndexArg(args).value <= |Tasks(Content(file))|
  }

  /**
   * `remove`: user errors print a message and write nothing; index 0
   * underflows `task_index - 1` and panics; an index past the last
   * non-empty line makes `Vec::remove` panic; otherwise the k-th non-empty
   * line is deleted and the rest is written back joined by separators.
   */
  function RemoveCmd(file: Option<string>, args: seq<string>): (r: Effect)
    ensures |args| <= 2 ==> r == Effect(file, [NoIndex], Ok)
    ensures |args| > 2 && ParseUsize(args[2]).None? ==> r == Effect(file, [InvalidIndex], Ok)
    ensures IndexArg(args) == Some(0) ==> r == Effect(file, [], Panic(SubtractOverflow))
    ensures IndexArg(args).Some? && IndexArg(args).value > 0 && Content(file) == "" ==>
              r == Effect(file, [NoTasks], Ok)
    ensures IndexArg(args).Some? && IndexArg(args).value > |Tasks(Content(file))| && Content(file) != "" ==>
              r == Effect(file, [], Panic(RemovalPanic(IndexArg(args).value - 1, |Tasks(Content(file))|)))
    ensures Removable(file, args) ==>
              r.status == Ok && r.out == [] &&
              r.file == Some(Join(RemoveAt(Tasks(Content(file)), IndexArg(args).value - 1)))
    ensures Removable(file, args) ==>
              Tasks(r.file.value) == RemoveAt(Tasks(Content(file)), IndexArg(args).value - 1)
    ensures !Removable(file, args) ==> r.file == file
  {
    if |args| <= 2 then Effect(file, [NoIndex], Ok)
    else match ParseUsize(args[2])
      case None => Effect(file, [InvalidIndex], Ok)
      case Some(k) =>
        if k == 0 then Effect(file, [], Panic(SubtractOverflow))
        else
          var content := Content(file);
          if content == "" then
            Effect(file, [NoTasks], Ok)
          else
            var lines := Tasks(content);
            if k - 1 >= |lines| then Effect(file, [], Panic(RemovalPanic(k - 1, |lines|)))
            else
              RemoveWriteBack(lines, k - 1);
              Effect(Some(Join(RemoveAt(lines, k - 1))), [], Ok)
  }

  /** `clear`: the file is removed; removing an absent file is an `io::Error` that `main` returns. */
  function ClearCmd(file: Option<string>): (r: Effect)
    ensures r.file == None && r.out == []
    ensures r.status == Ok <==> file.Some?
    ensures r.status == Ok || r.status == IoErr(NotFound)
  {
    match file
    case None => Effect(None, [], IoErr(NotFound))
    case Some(_) => Effect(None, [], Ok)
  }

  /**
   * `list`: "No tasks" when the file is absent; otherwise the header and
   * every split piece, empty ones included, numbered from 1. The split
   * never comes back empty, so the second "No tasks" branch is dead.
   */
  function ListCmd(file: Option<string>): (r: Effect)
    ensures r.file == file && r.status == Ok
    ensures file.None? ==> r.out == [NoTasks]
    ensures file.Some? ==> r.out == [Header] + Numbered(Split(file.value))
    ensures file.Some? ==> |r.out| == CountNewlines(file.value) + 2
  {
    match file
    case None => Effect(file, [NoTasks], Ok)
    case Some(content) =>
      var lines := Split(content);
      if |lines| == 0 then Effect(file, [NoTasks], Ok)
      else Effect(file, [Header] + Numbered(lines), Ok)
  }

  /**
   * `main`: the first argument after the program name picks the command.
   * Only add, remove and clear can change the file; only clear can return
   * an error and only remove can panic, leaving the file as it was;
   * an unknown command or no command just prints guidance.
   */
  function Dispatch(file: Option<string>, args: seq<string>): (r: Effect)
    ensures |args| < 2 ==> r == Effect(file, [Usage], Ok)
    ensures |args| >= 2 && args[1] == "add" ==> r == AddCmd(file, args)
    ensures |args| >= 2 && args[1] == "remove" ==> r == RemoveCmd(file, args)
    ensures |args| >= 2 && args[1] == "clear" ==> r == ClearCmd(file)
    ensures |args| >= 2 && args[1] == "list" ==> r == ListCmd(file)
    ensures |args| >= 2 && args[1] !in {"add", "remove", "clear", "list"} ==>
              r == Effect(file, [UnknownCommand(args[1])], Ok)
    ensures r.file != file ==> |args| >= 2 && args[1] in {"add", "remove", "clear"}
    ensures r.status.IoErr? ==> |args| >= 2 && args[1] == "clear" && file.None?
    ensures r.status.Panic? ==> |args| >= 2 && args[1] == "remove" && r.file == file
  {
    if |args| < 2 then Effect(file, [Usage], Ok)
    else if args[1] == "add" then AddCmd(file, args)
    else if args[1] == "remove" then RemoveCmd(file, args)
    else if args[1] == "clear" then ClearCmd(file)
    else if args[1] == "list" then ListCmd(file)
    else Effect(file, [UnknownCommand(args[1])], Ok)
  }

  /** Different entries of a listing are different lines: the number and the text can be read back. */
  lemma EntryInjective(n: nat, a: string, m: nat, b: string)
    requires Entry(n, a) == Entry(m, b)
    ensures n == m && a == b
  {
    var sn, sm := NatToString(n), NatToString(m);
    EntryDot(n, a);
    EntryDot(m, b);
    assert sn == Entry(n, a)[..|sn|];
    assert sm == Entry(m, b)[..|sm|];
    assert a == Entry(n, a)[|sn| + 2..];
    assert b == Entry(m, b)[|sm| + 2..];
  }

  /** The first '.' of an entry is the one right after the number. */
  lemma EntryDot(n: nat, a: string)
    ensures forall k :: 0 <= k < |NatToString(n)| ==> Entry(n, a)[k] != '.'
    ensures Entry(n, a)[|NatToString(n)|] == '.'
  {
  }
}
