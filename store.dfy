/**
 * The program itself: one backing file that each command reads, rewrites
 * in memory and writes back whole. Each method is proved to do what the
 * corresponding function of `Commands` describes.
 */
module TodoStore {
  import opened Options
  import opened Text
  import opened Decimal
  import opened Commands

  /** `~/.todo/list.todo`: absent, or present with some content. */
  class Store {
    var file: Option<string>

    constructor (initial: Option<string>)
      ensures file == initial
    {
      file := initial;
    }

    /** `add <task>`: read the content ("" if none), append the task as a new line, write it back. */
    method Add(args: seq<string>) returns (out: seq<string>, status: Status)
      modifies this
      ensures Effect(file, out, status) == AddCmd(old(file), args)
    {
      if |args| <= 2 {
        return [NoTaskName], Ok;
      }
      var task := args[2];
      var content := Content(file);
      var newContent := if content == "" then task else content + "\n" + task;
      file := Some(newContent);
      return [], Ok;
    }

    /**
     * `remove <index>`: parse the index, subtract one, read the content,
     * collect its non-empty lines, take out the selected one and write the
     * rest back.
     */
    method Remove(args: seq<string>) returns (out: seq<string>, status: Status)
      modifies this
      ensures Effect(file, out, status) == RemoveCmd(old(file), args)
    {
      if |args| <= 2 {
        return [NoIndex], Ok;
      }
      var parsed := ParseUsize(args[2]);
      if parsed.None? {
        return [InvalidIndex], Ok;
      }
      if parsed.value == 0 {
        return [], Panic(SubtractOverflow);
      }
      var taskIndex := parsed.value - 1;
      var content := Content(file);
      if content == "" {
        return [NoTasks], Ok;
      }
      var pieces := Split(content);
      var lines: seq<string> := [];
      for j := 0 to |pieces|
        invariant lines == NonEmpty(pieces[..j])
      {
        assert pieces[..j + 1][..j] == pieces[..j];
        if pieces[j] != "" {
          lines := lines + [pieces[j]];
        }
      }
      assert pieces[..|pieces|] == pieces;
      if taskIndex >= |lines| {
        return [], Panic(RemovalPanic(taskIndex, |lines|));
      }
      lines := lines[..taskIndex] + lines[taskIndex + 1..];
      file := Some(Join(lines));
      return [], Ok;
    }

    /** `clear`: delete the file; deleting an absent one fails with `NotFound`. */
    method Clear() returns (out: seq<string>, status: Status)
      modifies this
      ensures Effect(file, out, status) == ClearCmd(old(file))
    {
      if file.None? {
        return [], IoErr(NotFound);
      }
      file := None;
      return [], Ok;
    }

    /** `list`: print the header, then each split piece with its 1-based position. */
    method List() returns (out: seq<string>, status: Status)
      ensures out == ListCmd(file).out && status == ListCmd(file).status
    {
      if file.None? {
        return [NoTasks], Ok;
      }
      var lines := Split(file.value);
      if |lines| == 0 {
        return [NoTasks], Ok;
      }
      out := [Header];
      for i := 0 to |lines|
        invariant out == [Header] + Numbered(lines[..i])
      {
        assert lines[..i + 1] == lines[..i] + [lines[i]];
        out := out + [Entry(i + 1, lines[i])];
      }
      assert lines[..|lines|] == lines;
      status := Ok;
    }

    /** `main`: select the command by the first argument after the program name. */
    method Run(args: seq<string>) returns (out: seq<string>, status: Status)
      modifies this
      ensures Effect(file, out, status) == Dispatch(old(file), args)
    {
      if |args| < 2 {
        return [Usage], Ok;
      }
      var comm := args[1];
      if comm == "add" {
        out, status := Add(args);
      } else if comm == "remove" {
        out, status := Remove(args);
      } else if comm == "clear" {
        out, status := Clear();
      } else if comm == "list" {
        out, status := List();
      } else {
        out, status := [UnknownCommand(comm)], Ok;
      }
    }
  }
}
