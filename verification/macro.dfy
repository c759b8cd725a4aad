/** The macro file: one command per line. Loading keeps every trimmed,
    non-empty line in order; saving writes each command followed by a newline.
    Opening and writing the file, and UTF-8 decoding, are not modelled. */
module Macro {
  import opened Strings

  /** The trimmed, non-empty lines among `lines`, in order. */
  function KeepCommands(lines: seq<string>): (cmds: seq<string>)
    ensures |cmds| <= |lines|
    decreases |lines|
  {
    if |lines| == 0 then []
    else
      var t := Trim(lines[0]);
      (if t == "" then [] else [t]) + KeepCommands(lines[1..])
  }

  /** One line yields its trimmed text, or nothing when that is empty. */
  lemma KeepCommandsOne(line: string)
    ensures KeepCommands([line]) == (if Trim(line) == "" then [] else [Trim(line)])
  {
    assert [line][1..] == [];
  }

  /** Lines are read one after the other: the commands of `a + b` are the
      commands of `a` followed by those of `b`. */
  lemma {:induction false} KeepCommandsAppend(a: seq<string>, b: seq<string>)
    ensures KeepCommands(a + b) == KeepCommands(a) + KeepCommands(b)
    decreases |a|
  {
    if |a| > 0 {
      KeepCommandsCons(a + b);
      KeepCommandsCons(a);
      assert (a + b)[1..] == a[1..] + b;
      assert [(a + b)[0]] == [a[0]];
      KeepCommandsAppend(a[1..], b);
    } else {
      assert a + b == b;
    }
  }

  /** The commands of non-empty lines: those of the first line, then those of the rest. */
  lemma KeepCommandsCons(lines: seq<string>)
    requires |lines| > 0
    ensures KeepCommands(lines) == KeepCommands([lines[0]]) + KeepCommands(lines[1..])
  {
    KeepCommandsOne(lines[0]);
  }

  /** A newline-free line that does not trim to nothing trims to a storable command. */
  lemma TrimStorable(line: string)
    requires '\n' !in line && Trim(line) != ""
    ensures Storable(Trim(line))
  {
    if '\n' in Trim(line) {
      TrimKeeps(line, '\n');
    }
  }

  /** The commands kept from newline-free lines are storable: non-empty, trimmed, newline-free. */
  lemma {:induction false} KeptAreStorable(lines: seq<string>)
    requires forall i :: 0 <= i < |lines| ==> '\n' !in lines[i]
    ensures forall i :: 0 <= i < |KeepCommands(lines)| ==> Storable(KeepCommands(lines)[i])
    decreases |lines|
  {
    if |lines| > 0 {
      assert forall i :: 0 <= i < |lines[1..]| ==> '\n' !in lines[1..][i] by {
        forall i | 0 <= i < |lines[1..]|
          ensures '\n' !in lines[1..][i]
        {
          assert lines[1..][i] == lines[i + 1];
        }
      }
      KeptAreStorable(lines[1..]);
      var t := Trim(lines[0]);
      var rest := KeepCommands(lines[1..]);
      if t != "" {
        TrimStorable(lines[0]);
        assert KeepCommands(lines) == [t] + rest;
        forall i | 0 <= i < |KeepCommands(lines)|
          ensures Storable(KeepCommands(lines)[i])
        {
          if i > 0 {
            assert KeepCommands(lines)[i] == rest[i - 1];
          }
        }
      } else {
        assert KeepCommands(lines) == rest;
      }
    }
  }

  /** The commands read from the text of a macro file. */
  function LoadMacro(content: string): (cmds: seq<string>)
    ensures forall i :: 0 <= i < |cmds| ==> Storable(cmds[i])
  {
    KeptAreStorable(Split(content, '\n'));
    KeepCommands(Split(content, '\n'))
  }

  /** A file whose lines are `lines` loads as the commands kept from those lines. */
  lemma LoadMacroLines(lines: seq<string>)
    requires |lines| >= 1
    requires forall i :: 0 <= i < |lines| ==> '\n' !in lines[i]
    ensures LoadMacro(Join(lines, '\n')) == KeepCommands(lines)
  {
    SplitJoin(lines, '\n');
  }

  /** The text written for `cmds`: each command followed by "\n". */
  function SaveMacro(cmds: seq<string>): (content: string)
    ensures |cmds| > 0 ==> |content| > 0 && content[|content| - 1] == '\n'
    decreases |cmds|
  {
    if |cmds| == 0 then "" else cmds[0] + "\n" + SaveMacro(cmds[1..])
  }

  /** A command that survives a save and a load unchanged. */
  predicate Storable(cmd: string) {
    cmd != "" && Trimmed(cmd) && '\n' !in cmd
  }

  /** A storable command at the head of the lines is kept as it is. */
  lemma KeepStorableHead(cmd: string, rest: seq<string>)
    requires Storable(cmd)
    ensures KeepCommands([cmd] + rest) == [cmd] + KeepCommands(rest)
  {
    TrimOfTrimmed(cmd);
    assert ([cmd] + rest)[1..] == rest;
  }

  /** The lines of a saved log start with its first command. */
  lemma SavedLines(cmds: seq<string>)
    requires |cmds| > 0 && '\n' !in cmds[0]
    ensures Split(SaveMacro(cmds), '\n') == [cmds[0]] + Split(SaveMacro(cmds[1..]), '\n')
  {
    assert SaveMacro(cmds) == cmds[0] + ['\n'] + SaveMacro(cmds[1..]);
    SplitAfterPiece(cmds[0], SaveMacro(cmds[1..]), '\n');
  }

  /** Saving and loading again is the identity on logs of trimmed, non-empty,
      newline-free commands. */
  lemma {:induction false} SaveLoadMacro(cmds: seq<string>)
    requires forall i :: 0 <= i < |cmds| ==> Storable(cmds[i])
    ensures LoadMacro(SaveMacro(cmds)) == cmds
    decreases |cmds|
  {
    if |cmds| == 0 {
      assert Split("", '\n') == [""];
    } else {
      var rest := SaveMacro(cmds[1..]);
      assert Storable(cmds[0]);
      SavedLines(cmds);
      KeepStorableHead(cmds[0], Split(rest, '\n'));
      assert forall i :: 0 <= i < |cmds[1..]| ==> Storable(cmds[1..][i]) by {
        forall i | 0 <= i < |cmds[1..]|
          ensures Storable(cmds[1..][i])
        {
          assert cmds[1..][i] == cmds[i + 1];
        }
      }
      SaveLoadMacro(cmds[1..]);
      calc {
        LoadMacro(SaveMacro(cmds));
        KeepCommands(Split(SaveMacro(cmds), '\n'));
        KeepCommands([cmds[0]] + Split(rest, '\n'));
        [cmds[0]] + KeepCommands(Split(rest, '\n'));
        [cmds[0]] + cmds[1..];
        cmds;
      }
    }
  }

  /** A loaded log, saved and loaded again, is unchanged. */
  lemma LoadSaveLoad(content: string)
    ensures LoadMacro(SaveMacro(LoadMacro(content))) == LoadMacro(content)
  {
    SaveLoadMacro(LoadMacro(content));
  }
}
