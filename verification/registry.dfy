/** The commands directory as the launcher sees it: which names exist as
    files, what they hold, and which of them raise when executed. The
    directory listing, file reading and in-process execution of a script are
    parameters here; the module models how a typed command is resolved to a
    file and how the help listing is built from the directory. */
module Registry {
  import opened Optional
  import opened Text
  import opened Docstring

  /** The commands directory.
      `listing`: the names `os.listdir` yields, in its order.
      `contents`: the regular, readable files and their lines; a listed name
      without contents is a sub-directory or a file that cannot be read.
      `failing`: the files whose execution raises. */
  datatype Dir = Dir(
    listing: seq<string>,
    contents: map<string, seq<string>>,
    failing: set<string>)

  /** `os.path.isfile` on a name inside the commands directory. */
  predicate IsFile(d: Dir, name: string)
  {
    name in d.contents
  }

  /** The first candidate, by position, that exists as a file. */
  function FirstFile(d: Dir, candidates: seq<string>): (r: Option<nat>)
    ensures r.Some? ==>
      && r.value < |candidates| && IsFile(d, candidates[r.value])
      && forall k :: 0 <= k < r.value ==> !IsFile(d, candidates[k])
    ensures r.None? ==> forall k :: 0 <= k < |candidates| ==> !IsFile(d, candidates[k])
  {
    if |candidates| == 0 then None
    else if IsFile(d, candidates[0]) then Some(0)
    else match FirstFile(d, candidates[1..])
      case None => None
      case Some(k) => Some(k + 1)
  }

  /** The file names probed for `command`: one per accepted extension,
      `py` before `txt`. */
  function Candidates(command: string): seq<string>
  {
    [command + ".py", command + ".txt"]
  }

  /** The file a typed command runs: `<command>.py` when it exists, otherwise
      `<command>.txt` when that exists, otherwise none. */
  function Probe(d: Dir, command: string): (r: Option<string>)
    ensures r.Some? <==> IsFile(d, command + ".py") || IsFile(d, command + ".txt")
    ensures r.Some? ==> IsFile(d, r.value)
    ensures IsFile(d, command + ".py") ==> r == Some(command + ".py")
    ensures r == Some(command + ".txt") <==>
      !IsFile(d, command + ".py") && IsFile(d, command + ".txt")
  {
    var cs := Candidates(command);
    assert |cs[0]| != |cs[1]|;
    match FirstFile(d, cs)
    case None => None
    case Some(k) => Some(cs[k])
  }

  /** The probe looks at the two candidate files and nothing else. */
  lemma ProbeLocal(d1: Dir, d2: Dir, command: string)
    requires IsFile(d1, command + ".py") == IsFile(d2, command + ".py")
    requires IsFile(d1, command + ".txt") == IsFile(d2, command + ".txt")
    ensures Probe(d1, command) == Probe(d2, command)
  {
  }

  /** A name the help listing shows: it ends in `.py` or `.txt`. */
  predicate IsCommandFile(name: string)
  {
    EndsWith(name, ".py") || EndsWith(name, ".txt")
  }

  /** `file.split('.')[0]`: the text before the first dot. */
  function CommandName(file: string): (r: string)
    ensures |r| <= |file| && r == file[..|r|]
    ensures forall i :: 0 <= i < |r| ==> r[i] != '.'
    ensures |r| < |file| ==> file[|r|] == '.'
  {
    var parts := Split(file, ".");
    SplitSpec(file, ".");
    var r := parts[0];
    ContainsChar(r, '.');
    assert |parts| >= 2 ==> file == r + "." + Join(parts[1..], ".");
    r
  }

  /** A command file's name stops before its extension. */
  lemma CommandNameShort(file: string)
    requires IsCommandFile(file)
    ensures |CommandName(file)| < |file|
  {
    var r := CommandName(file);
    var k := if EndsWith(file, ".py") then |file| - 3 else |file| - 4;
    assert file[k] == '.';
    assert forall i :: 0 <= i < |r| ==> file[i] == r[i];
  }

  /** `get_command_docstring` on a listed name: the description of a readable
      file, or the error text when the name cannot be read. */
  function DescriptionOf(d: Dir, file: string): (r: string)
    ensures r != ""
    ensures file !in d.contents ==> r == ReadError
    ensures file in d.contents && DocstringSpec(d.contents[file]) != "" ==>
      r == DocstringSpec(d.contents[file])
    ensures file in d.contents && DocstringSpec(d.contents[file]) == "" ==> r == NoDescription
  {
    if file in d.contents then Describe(d.contents[file]) else ReadError
  }

  /** The description of a name that cannot be read. */
  const ReadError: string := "Erro ao obter descri\U{e7}\U{e3}o"

  /** The help line for a command file. */
  function HelpLine(d: Dir, file: string): (r: string)
    ensures var n := CommandName(file);
      |n| + 3 < |r| && r[..|n|] == n && r[|n|..|n| + 3] == " - "
  {
    CommandName(file) + " - " + DescriptionOf(d, file)
  }

  /** The loop of `list_commands` over `names`. */
  function ListFrom(d: Dir, names: seq<string>): (r: seq<string>)
    ensures |r| == |CommandFiles(names)|
  {
    if |names| == 0 then []
    else if IsCommandFile(names[0]) then [HelpLine(d, names[0])] + ListFrom(d, names[1..])
    else ListFrom(d, names[1..])
  }

  /** `list_commands`: one help line per command file, in directory order. */
  function ListCommands(d: Dir): (r: seq<string>)
    ensures |r| == |CommandFiles(d.listing)|
    ensures forall k :: 0 <= k < |r| ==> r[k] == HelpLine(d, CommandFiles(d.listing)[k])
  {
    ListIsHelpLines(d, d.listing);
    ListFrom(d, d.listing)
  }

  /** The names of the command files among `names`, in order. */
  function CommandFiles(names: seq<string>): (r: seq<string>)
    ensures forall k :: 0 <= k < |r| ==> IsCommandFile(r[k])
    ensures |r| <= |names|
  {
    if |names| == 0 then []
    else if IsCommandFile(names[0]) then [names[0]] + CommandFiles(names[1..])
    else CommandFiles(names[1..])
  }

  /** The listing is the help line of each command file, one for one, in
      directory order. */
  lemma {:induction false} ListIsHelpLines(d: Dir, names: seq<string>)
    ensures |ListFrom(d, names)| == |CommandFiles(names)|
    ensures forall k :: 0 <= k < |ListFrom(d, names)| ==>
      ListFrom(d, names)[k] == HelpLine(d, CommandFiles(names)[k])
  {
    if |names| > 0 {
      ListIsHelpLines(d, names[1..]);
    }
  }

  /** Listing two parts of the directory one after the other gives the
      listing of the whole. */
  lemma {:induction false} ListAppend(d: Dir, a: seq<string>, b: seq<string>)
    ensures ListFrom(d, a + b) == ListFrom(d, a) + ListFrom(d, b)
  {
    if |a| == 0 {
      assert a + b == b;
    } else {
      assert (a + b)[1..] == a[1..] + b;
      ListAppend(d, a[1..], b);
    }
  }

  const TooltipHeader: string := "Comandos dispon\U{ed}veis:"

  /** The help overlay's text: a header, a blank line, then one line per
      command. */
  function TooltipText(lines: seq<string>): string
  {
    TooltipHeader + "\n\n" + Join(lines, "\n")
  }

  /** When no help line holds a line break, the overlay's rows are the
      header, a blank row, and exactly the help lines. */
  lemma TooltipRows(lines: seq<string>)
    requires |lines| >= 1
    requires forall k, i :: 0 <= k < |lines| && 0 <= i < |lines[k]| ==> lines[k][i] != '\n'
    ensures Split(TooltipText(lines), "\n") == [TooltipHeader, ""] + lines
  {
    var rows := [TooltipHeader, ""] + lines;
    assert rows[2..] == lines;
    assert Join(rows, "\n") == TooltipHeader + "\n" + ("" + "\n" + Join(lines, "\n"));
    assert TooltipText(lines) == Join(rows, "\n");
    assert forall i :: 0 <= i < |TooltipHeader| ==> TooltipHeader[i] != '\n';
    SplitJoin(rows, '\n');
  }

  /** The command name of `a.py` is `a`. */
  lemma CommandNameOfScript()
    ensures CommandName("a.py") == "a"
  {
    var file := "a.py";
    var r := CommandName(file);
    assert file[0] != '.' && file[1] == '.';
    assert r == file[..|r|];
    assert |r| == 1;
  }

  /** The help listing reads a one-line block as the launcher does: a
      directory holding only `a.py`, whose lines are `"""A"""` and `b`, is
      listed as `a - A b`, where the corrected scan gives `A`. */
  lemma ListingRunsOn()
    ensures var lines := [Marker + "A" + Marker, "b"];
      var d := Dir(["a.py"], map["a.py" := lines], {});
      && ListCommands(d) == ["a - A b"]
      && DescribeFixed(lines) == "A"
  {
    var lines := [Marker + "A" + Marker, "b"];
    var d := Dir(["a.py"], map["a.py" := lines], {});
    OneLinerRunsOn();
    assert "a.py"[1..] == ".py";
    assert CommandFiles(d.listing) == ["a.py"];
    CommandNameOfScript();
    assert DescriptionOf(d, "a.py") == "A b";
    assert HelpLine(d, "a.py") == "a - A b";
    var r := ListCommands(d);
    assert |r| == 1 && r[0] == "a - A b";
    assert r == ["a - A b"];
  }
}
