/**
 * Properties of sequences of commands: what `list` shows after a series of
 * adds, how `remove` undoes an `add`, where `list` and `remove` disagree
 * about empty lines, and what `clear` leaves behind.
 */
module Properties {
  import opened Options
  import opened Text
  import opened Decimal
  import opened Commands

  function AddArgs(task: string): seq<string> {
    ["todo", "add", task]
  }

  function RemoveArgs(index: string): seq<string> {
    ["todo", "remove", index]
  }

  const ListArgs: seq<string> := ["todo", "list"]
  const ClearArgs: seq<string> := ["todo", "clear"]

  /**
   * The file after running `todo add t` for each `t` of `tasks`, in order
   * (`main` routes "add" to `AddCmd`, see `Dispatch`).
   */
  function AddAll(file: Option<string>, tasks: seq<string>): Option<string> {
    if |tasks| == 0 then file
    else AddCmd(AddAll(file, tasks[..|tasks| - 1]), AddArgs(tasks[|tasks| - 1])).file
  }

  /**
   * Adding newline-free tasks to an absent file stores exactly those
   * tasks as its lines. The first task must not be empty when more follow:
   * an empty first task leaves the content "", which the next add replaces.
   */
  lemma {:induction false} AddAllSplit(tasks: seq<string>)
    requires |tasks| >= 1 && AllNoNewline(tasks)
    requires |tasks| >= 2 ==> tasks[0] != ""
    ensures AddAll(None, tasks).Some?
    ensures Split(AddAll(None, tasks).value) == tasks
  {
    var n := |tasks|;
    var t := tasks[n - 1];
    if n == 1 {
      assert tasks[..0] == [];
      SplitLine(t);
    } else {
      var prev := tasks[..n - 1];
      AddAllSplit(prev);
      var c := AddAll(None, prev).value;
      assert c != "" by {
        assert prev[0] == tasks[0];
      }
      assert AddAll(None, tasks).value == Appended(c, t);
      assert prev + [t] == tasks;
    }
  }

  /** `add T1` ... `add Tn` on an absent file, then `list`, prints T1..Tn numbered from 1. */
  lemma AddsThenList(tasks: seq<string>)
    requires |tasks| >= 1 && AllNoNewline(tasks)
    requires |tasks| >= 2 ==> tasks[0] != ""
    ensures Dispatch(AddAll(None, tasks), ListArgs).out == [Header] + Numbered(tasks)
  {
    AddAllSplit(tasks);
    ListTasks(AddAll(None, tasks), tasks);
  }

  lemma ListTasks(f: Option<string>, tasks: seq<string>)
    requires f.Some? && Split(f.value) == tasks
    ensures Dispatch(f, ListArgs).out == [Header] + Numbered(tasks)
  {
    assert Dispatch(f, ListArgs) == ListCmd(f);
  }

  /** The quirk behind the requirement above: an empty first task is lost. */
  lemma EmptyFirstTaskLost()
    ensures AddAll(None, ["", "b"]) == Some("b")
    ensures Dispatch(AddAll(None, ["", "b"]), ListArgs).out == [Header, Entry(1, "b")]
  {
    SplitLine("b");
  }

  /** After `add t`, the task lines `remove` sees are the old ones with `t` at the end. */
  lemma AddExtendsTasks(file: Option<string>, t: string)
    requires NoNewline(t) && t != ""
    ensures Tasks(Content(Dispatch(file, AddArgs(t)).file)) == Tasks(Content(file)) + [t]
  {
    var c := Content(file);
    if c == "" {
      SplitLine(t);
      assert NonEmpty([t]) == NonEmpty([]) + [t];
      assert Split(c) == [""] && NonEmpty([""]) == NonEmpty([]) == [];
    } else {
      NonEmptyConcat(Split(c), [t]);
      assert NonEmpty([t]) == NonEmpty([]) + [t];
    }
  }

  /** `remove n+1` right after adding a task to a file with n task lines takes that task out again. */
  lemma AddThenRemove(file: Option<string>, t: string)
    requires NoNewline(t) && t != ""
    requires |Tasks(Content(file))| < USIZE_MAX
    ensures var added := Dispatch(file, AddArgs(t)).file;
            var r := Dispatch(added, RemoveArgs(NatToString(|Tasks(Content(file))| + 1)));
            r.status == Ok && r.out == [] && Tasks(Content(r.file)) == Tasks(Content(file))
  {
    var n := |Tasks(Content(file))|;
    AddExtendsTasks(file, t);
    ParseFormat(n + 1);
    var added := Dispatch(file, AddArgs(t)).file;
    var args := RemoveArgs(NatToString(n + 1));
    assert IndexArg(args) == Some(n + 1);
    assert Tasks(Content(added)) == Tasks(Content(file)) + [t];
    assert Removable(added, args);
    var r := RemoveCmd(added, args);
    assert Dispatch(added, args) == r;
    assert Tasks(r.file.value) == RemoveAt(Tasks(Content(file)) + [t], n);
    assert RemoveAt(Tasks(Content(file)) + [t], n) == Tasks(Content(file));
  }

  /**
   * After an in-range `remove`, `list` shows exactly the remaining task
   * lines numbered from 1; when none remain, the empty file it leaves
   * shows as one blank entry.
   */
  lemma RemoveThenList(file: Option<string>, args: seq<string>)
    requires |args| >= 2 && args[1] == "remove" && Removable(file, args)
    ensures var rest := RemoveAt(Tasks(Content(file)), IndexArg(args).value - 1);
            Dispatch(Dispatch(file, args).file, ListArgs).out ==
              if |rest| == 0 then [Header, Entry(1, "")] else [Header] + Numbered(rest)
  {
    var lines := Tasks(Content(file));
    var i := IndexArg(args).value - 1;
    var rest := RemoveAt(lines, i);
    assert Dispatch(file, args) == RemoveCmd(file, args);
    assert RemoveCmd(file, args).file == Some(Join(rest));
    assert Dispatch(Some(Join(rest)), ListArgs) == ListCmd(Some(Join(rest)));
    assert AllNoNewline(rest) by {
      assert forall j :: 0 <= j < |rest| ==> rest[j] == lines[if j < i then j else j + 1];
    }
    ListOfJoin(rest);
  }

  /** Listing a file written as the join of newline-free lines shows those lines, or one blank entry for none. */
  lemma ListOfJoin(ls: seq<string>)
    requires AllNoNewline(ls)
    ensures ListCmd(Some(Join(ls))).out ==
              if |ls| == 0 then [Header, Entry(1, "")] else [Header] + Numbered(ls)
  {
    if |ls| == 0 {
      assert Split(Join(ls)) == [""];
    } else {
      SplitJoin(ls);
    }
  }

  /**
   * When the file has no empty lines, the lines `list` numbers and the
   * lines `remove` indexes are the same: `remove k` deletes entry k.
   */
  lemma RemoveDeletesListed(c: string, k: nat)
    requires AllNonEmpty(Split(c))
    requires 1 <= k <= |Split(c)| && k <= USIZE_MAX
    ensures var r := Dispatch(Some(c), RemoveArgs(NatToString(k)));
            r.status == Ok && r.out == [] && r.file.Some? &&
            Tasks(r.file.value) == RemoveAt(Split(c), k - 1)
  {
    NonEmptyKeeps(Split(c));
    ParseFormat(k);
    assert IndexArg(RemoveArgs(NatToString(k))) == Some(k);
  }

  lemma SplitWithBlank()
    ensures Split("a\n\nb") == ["a", "", "b"]
  {
    assert "a\n\nb" == "a" + [NL] + ("" + [NL] + "b");
    SplitAfterLine("a", "" + [NL] + "b");
    SplitAfterLine("", "b");
    SplitLine("b");
  }

  /** With an empty line, `list` shows it as an entry of its own ... */
  lemma ListShowsBlank()
    ensures Dispatch(Some("a\n\nb"), ListArgs).out == [Header, "1. a", "2. ", "3. b"]
  {
    SplitWithBlank();
    assert NatToString(1) == "1" && NatToString(2) == "2" && NatToString(3) == "3";
    assert Entry(1, "a") == "1. a" && Entry(2, "") == "2. " && Entry(3, "b") == "3. b";
  }

  lemma TasksWithBlank()
    ensures Tasks("a\n\nb") == ["a", "b"]
  {
    SplitWithBlank();
    assert ["a", "", "b"] == ["a", ""] + ["b"];
    assert ["a", ""] == ["a"] + [""];
    NonEmptyConcat(["a", ""], ["b"]);
    NonEmptyConcat(["a"], [""]);
    NonEmptyKeeps(["a"]);
    NonEmptyKeeps(["b"]);
  }

  /** ... while `remove` skips it, so `remove 2` deletes the entry `list` numbers 3. */
  lemma RemoveSkipsBlank()
    ensures Dispatch(Some("a\n\nb"), RemoveArgs("2")).file == Some("a")
  {
    TasksWithBlank();
    ParseDigit('2');
    assert RemoveAt(["a", "b"], 1) == ["a"];
  }

  /** Deleting the only task leaves an empty file, which `list` shows as one blank entry. */
  lemma RemoveOnlyTask(t: string)
    requires NoNewline(t) && t != ""
    ensures Dispatch(Some(t), RemoveArgs("1")) == Effect(Some(""), [], Ok)
    ensures Dispatch(Some(""), ListArgs).out == [Header, Entry(1, "")]
  {
    TasksOfLine(t);
    ParseDigit('1');
    var args := RemoveArgs("1");
    assert IndexArg(args) == Some(1);
    assert Removable(Some(t), args);
    assert RemoveAt([t], 0) == [];
    var r := RemoveCmd(Some(t), args);
    assert r == Effect(Some(Join([])), [], Ok);
    assert Dispatch(Some(t), args) == r;
    ListOfJoin([]);
  }

  lemma TasksOfLine(t: string)
    requires NoNewline(t) && t != ""
    ensures Tasks(t) == [t]
  {
    SplitLine(t);
    assert NonEmpty([t]) == NonEmpty([]) + [t];
  }

  /** `clear` then `list` prints "No tasks"; a second `clear` fails with `NotFound`. */
  lemma ClearThenList(file: Option<string>)
    ensures Dispatch(Dispatch(file, ClearArgs).file, ListArgs).out == [NoTasks]
    ensures Dispatch(Dispatch(file, ClearArgs).file, ClearArgs).status == IoErr(NotFound)
  {
  }
}
