/** The command side of term.js: Shell.runCommand (trim, split on white
    space, look the name up, or report it as not found) and the registry
    lookup of the `help` command. Command bodies are not modelled: running a
    command is the Invoke action. */
module Shell {
  import opened Text

  /** A registry entry: the command's name and its `help` property, which may
      be missing. */
  datatype Entry = Entry(name: JsString, help: Option<JsString>)

  /** The `commands` object, in the order its properties were defined. */
  type Registry = seq<Entry>

  const HIDDEN_MARK: JsString := Lit("[HIDDEN]")

  /** Commands whose help is the "[HIDDEN]" marker are left out of listings. */
  predicate IsHidden(e: Entry)
  {
    e.help == Some(HIDDEN_MARK)
  }

  predicate Registered(reg: Registry, name: JsString)
  {
    exists k :: 0 <= k < |reg| && reg[k].name == name
  }

  /** `commands[name]` for an own property: the first entry of that name. */
  function Lookup(reg: Registry, name: JsString): (r: Option<Entry>)
    ensures r.Some? ==> r.value in reg && r.value.name == name
    ensures r.None? <==> !Registered(reg, name)
  {
    if reg == [] then None
    else if reg[0].name == name then Some(reg[0])
    else
      var r := Lookup(reg[1..], name);
      assert Registered(reg[1..], name) ==> Registered(reg, name) by {
        if Registered(reg[1..], name) {
          var k :| 0 <= k < |reg[1..]| && reg[1..][k].name == name;
          assert reg[k + 1].name == name;
        }
      }
      r
  }

  /** Lookup finds the first entry of the name. */
  lemma {:induction false} LookupFirst(reg: Registry, name: JsString, k: nat)
    requires k < |reg| && reg[k].name == name
    requires forall j :: 0 <= j < k ==> reg[j].name != name
    ensures Lookup(reg, name) == Some(reg[k])
  {
    if k > 0 {
      LookupFirst(reg[1..], name, k - 1);
    }
  }

  // ---------------------------------------------------------------------
  // runCommand
  // ---------------------------------------------------------------------

  /** What runCommand does with a line: print a text, or call a command with
      its arguments. */
  datatype Action = Show(text: JsString) | Invoke(name: JsString, args: seq<JsString>)

  const NOT_FOUND: JsString := Lit(": command not found\r\n")

  /** The words of a line: `line.trim().split(/\s+/)`. */
  function Words(line: JsString): (w: seq<JsString>)
    requires !IsBlank(line)
    ensures |w| >= 1
    ensures forall k :: 0 <= k < |w| ==> w[k] != [] && NoSpace(w[k])
    ensures Concat(w) == WithoutSpace(line)
    ensures |Separators(Trim(line))| == |w| - 1
    ensures forall k :: 0 <= k < |w| - 1 ==>
              Separators(Trim(line))[k] != [] && AllSpace(Separators(Trim(line))[k])
    ensures Join(w, Separators(Trim(line))) == Trim(line)
  {
    var t := Trim(line);
    TrimSpec(line);
    SplitTrimmed(t);
    SplitKeepsText(t);
    TrimKeepsText(line);
    SplitJoin(t);
    Split(t)
  }

  /** Shell.runCommand. A blank line prints the empty string and runs nothing.
      Otherwise the first word names the command and the other words are its
      arguments; a name that is not registered prints exactly the name and
      ": command not found", whatever the arguments. */
  function RunCommand(reg: Registry, line: JsString): (a: Action)
    ensures IsBlank(line) <==> a == Show([])
    ensures !IsBlank(line) && Registered(reg, Words(line)[0]) ==>
              a == Invoke(Words(line)[0], Words(line)[1..])
    ensures !IsBlank(line) && !Registered(reg, Words(line)[0]) ==>
              a == Show(Words(line)[0] + NOT_FOUND)
  {
    var cmd := Trim(line);
    if cmd == [] then Show([])
    else
      var parts := Split(cmd);
      var name := parts[0];
      if Lookup(reg, name).Some? then Invoke(name, parts[1..])
      else Show(name + NOT_FOUND)
  }

  lemma NextSpaceAfter(a: JsString, b: JsString, from: nat)
    requires from <= |a| && NoSpace(a) && b != [] && IsJsSpace(b[0])
    ensures NextSpace(a + b, from) == |a|
    decreases |a| - from
  {
    if from < |a| {
      NextSpaceAfter(a, b, from + 1);
    }
  }

  /** A command name followed by one space and one argument: the name is
      looked up and the argument passed on, or the name alone is reported
      as not found. */
  lemma CommandWithArgument(reg: Registry, name: JsString, arg: JsString)
    requires name != [] && NoSpace(name) && arg != [] && NoSpace(arg)
    ensures RunCommand(reg, name + [SPACE] + arg)
            == if Registered(reg, name) then Invoke(name, [arg]) else Show(name + NOT_FOUND)
  {
    var line := name + [SPACE] + arg;
    assert !IsJsSpace(line[0]) && line[0] == name[0];
    assert !IsJsSpace(line[|line| - 1]) && line[|line| - 1] == arg[|arg| - 1];
    assert TrimStart(line) == line;
    assert TrimEnd(line) == line;
    assert line == name + ([SPACE] + arg);
    NextSpaceAfter(name, [SPACE] + arg, 0);
    var j := SkipSpace(line, |name|);
    assert j == |name| + 1 by {
      assert line[|name| + 1] == arg[0];
    }
    assert line[..|name|] == name;
    assert line[j..] == arg;
    var tail := Split(arg);
    assert NextSpace(arg, 0) == |arg|;
    assert tail == [arg];
    assert Split(line) == [name, arg];
  }

  // ---------------------------------------------------------------------
  // help
  // ---------------------------------------------------------------------

  const CRLF: JsString := [CR, LF]
  const AVAILABLE: JsString := Lit("Available commands:\r\n")
  const HELP_HINT: JsString := Lit("Type 'help [command]' for more information on a specific command.\r\n")
  const NO_HELP: JsString := Lit("help is not available for this command.\r\n")

  function Undocumented(name: JsString): JsString
  {
    Lit("idk what this command does...\r\njust type '") + name + Lit("' and see what happens i guess\r\n")
  }

  /** The entries `help` lists, in registry order: all but the hidden. */
  function Visible(reg: Registry): (v: Registry)
    ensures forall k :: 0 <= k < |v| ==> v[k] in reg && !IsHidden(v[k])
    ensures forall k :: 0 <= k < |reg| && !IsHidden(reg[k]) ==> reg[k] in v
  {
    if reg == [] then []
    else (if IsHidden(reg[0]) then [] else [reg[0]]) + Visible(reg[1..])
  }

  /** The listing follows the registry's order: listing two registries one
      after the other lists each in turn. */
  lemma {:induction false} VisibleConcat(a: Registry, b: Registry)
    ensures Visible(a + b) == Visible(a) + Visible(b)
  {
    if a == [] {
      assert a + b == b;
    } else {
      assert (a + b)[0] == a[0];
      assert (a + b)[1..] == a[1..] + b;
      VisibleConcat(a[1..], b);
    }
  }

  function ListLines(v: Registry): (lines: seq<JsString>)
    ensures |lines| == |v|
    ensures forall k :: 0 <= k < |v| ==> lines[k] == Lit("- ") + v[k].name + CRLF
  {
    if v == [] then [] else [Lit("- ") + v[0].name + CRLF] + ListLines(v[1..])
  }

  /** The texts the `help` command prints, one per print call. With no
      argument, a header, one line per visible command and a hint. With one
      argument, that command's help; the "idk" text when it has none (or an
      empty one); the not-available text when it is hidden or unknown. With
      more arguments, nothing. */
  function HelpOutput(reg: Registry, args: seq<JsString>): (prints: seq<JsString>)
    ensures |args| == 0 ==>
              |prints| == |Visible(reg)| + 2 && prints[0] == AVAILABLE && prints[|prints| - 1] == HELP_HINT
              && forall k :: 1 <= k < |prints| - 1 ==> prints[k] == Lit("- ") + Visible(reg)[k - 1].name + CRLF
    ensures |args| == 1 && !Registered(reg, args[0]) ==> prints == [NO_HELP]
    ensures |args| == 1 && Registered(reg, args[0]) ==>
              var e := Lookup(reg, args[0]).value;
              (IsHidden(e) ==> prints == [NO_HELP])
              && (!IsHidden(e) && (e.help == None || e.help == Some([])) ==> prints == [Undocumented(args[0])])
              && (!IsHidden(e) && e.help.Some? && e.help.value != [] ==> prints == [e.help.value + CRLF])
    ensures |args| >= 2 ==> prints == []
  {
    if |args| == 0 then [AVAILABLE] + ListLines(Visible(reg)) + [HELP_HINT]
    else if |args| == 1 then
      match Lookup(reg, args[0])
      case Some(e) =>
        if IsHidden(e) then [NO_HELP]
        else if e.help == None || e.help == Some([]) then [Undocumented(args[0])]
        else [e.help.value + CRLF]
      case None => [NO_HELP]
    else []
  }

  /** A hidden command's help is never shown, by name or in the listing. */
  lemma HiddenStaysHidden(reg: Registry, name: JsString)
    requires forall k :: 0 <= k < |reg| && reg[k].name == name ==> IsHidden(reg[k])
    ensures HelpOutput(reg, [name]) == [NO_HELP]
    ensures forall k :: 0 <= k < |Visible(reg)| ==> Visible(reg)[k].name != name
  {
  }

  // ---------------------------------------------------------------------
  // The registry of term.js
  // ---------------------------------------------------------------------

  /** The commands of the Shell constructor and the help properties set
      after it, in definition order. */
  const Commands: Registry := [
    Entry(Lit("clear"), Some(Lit("Clears the terminal screen."))),
    Entry(Lit("echo"), Some(Lit("Usage: echo [...arguments]\r\nEchoes the provided arguments back to the terminal."))),
    Entry(Lit("emacs"), Some(HIDDEN_MARK)),
    Entry(Lit("exit"), Some(Lit("Exits the shell."))),
    Entry(Lit("hello"), None),
    Entry(Lit("help"), Some(Lit("Usage: 'help' or 'help [command]'\r\nDisplays a list of available commands or detailed information about a specific command."))),
    Entry(Lit("neofetch"), None),
    Entry(Lit("no"), None),
    Entry(Lit("nvim"), Some(HIDDEN_MARK)),
    Entry(Lit("sudo"), Some(Lit("Usage: sudo [command] [...arguments]\r\nExecute a command with superuser privileges.\r\nYou will be prompted for a password."))),
    Entry(Lit("vi"), Some(HIDDEN_MARK)),
    Entry(Lit("vim"), Some(HIDDEN_MARK)),
    Entry(Lit("yes"), None)
  ]

  /** `help echo` prints echo's help text. */
  lemma HelpOfEcho()
    ensures HelpOutput(Commands, [Lit("echo")])
            == [Lit("Usage: echo [...arguments]\r\nEchoes the provided arguments back to the terminal.") + CRLF]
  {
    var name := Lit("echo");
    assert Commands[0].name != name by {
      assert |Commands[0].name| != |name|;
    }
    LookupFirst(Commands, name, 1);
    assert !IsHidden(Commands[1]) by {
      assert |Commands[1].help.value| != |HIDDEN_MARK|;
    }
  }

  /** `help hello` prints the text for a command without help. */
  lemma HelpOfHello()
    ensures HelpOutput(Commands, [Lit("hello")]) == [Undocumented(Lit("hello"))]
  {
    var name := Lit("hello");
    forall k | 0 <= k < 4 ensures Commands[k].name != name {
      assert Commands[k].name[0] != name[0] || |Commands[k].name| != |name|;
    }
    LookupFirst(Commands, name, 4);
  }

  /** `help vim` says that no help is available: vim is hidden. */
  lemma HelpOfVim()
    ensures HelpOutput(Commands, [Lit("vim")]) == [NO_HELP]
  {
    var name := Lit("vim");
    forall k | 0 <= k < |Commands| && Commands[k].name == name ensures IsHidden(Commands[k]) {
      assert Commands[k].name[0] == name[0] && |Commands[k].name| == |name|;
    }
    HiddenStaysHidden(Commands, name);
  }

  // ---------------------------------------------------------------------
  // The lookup as written: `this.commands[cmdName]` on a plain object
  // ---------------------------------------------------------------------

  /** The properties every plain object inherits from Object.prototype. */
  const PrototypeNames: set<JsString> := {
    Lit("constructor"), Lit("hasOwnProperty"), Lit("isPrototypeOf"),
    Lit("propertyIsEnumerable"), Lit("toLocaleString"), Lit("toString"),
    Lit("valueOf"), Lit("__proto__"), Lit("__defineGetter__"),
    Lit("__defineSetter__"), Lit("__lookupGetter__"), Lit("__lookupSetter__")
  }

  /** runCommand exactly as written: the property lookup also finds the
      inherited members, which are truthy, so they are called as commands. */
  function RunCommandAsWritten(reg: Registry, line: JsString): (a: Action)
    ensures IsBlank(line) <==> a == Show([])
    ensures !IsBlank(line) && (Registered(reg, Words(line)[0]) || Words(line)[0] !in PrototypeNames) ==>
              a == RunCommand(reg, line)
    ensures !IsBlank(line) && !Registered(reg, Words(line)[0]) && Words(line)[0] in PrototypeNames ==>
              a == Invoke(Words(line)[0], Words(line)[1..])
  {
    var cmd := Trim(line);
    if cmd == [] then Show([])
    else
      var parts := Split(cmd);
      var name := parts[0];
      if Lookup(reg, name).Some? || name in PrototypeNames then Invoke(name, parts[1..])
      else Show(name + NOT_FOUND)
  }

  /** As written, a line naming an Object.prototype member that is not a
      command is dispatched instead of being reported as not found; the
      corrected RunCommand reports it. */
  lemma PrototypeNameDispatched(reg: Registry, name: JsString)
    requires name in PrototypeNames && !Registered(reg, name)
    requires name != [] && NoSpace(name)
    ensures RunCommandAsWritten(reg, name) == Invoke(name, [])
    ensures RunCommand(reg, name) == Show(name + NOT_FOUND)
  {
    assert TrimStart(name) == name;
    assert TrimEnd(name) == name;
    assert NextSpace(name, 0) == |name|;
    assert Split(name) == [name];
  }

  /** The `help` command exactly as written: `this.commands[cmdName]` also
      finds an inherited member, which has no `help` property, so the
      undocumented-command text is printed for it. */
  function HelpOutputAsWritten(reg: Registry, args: seq<JsString>): (prints: seq<JsString>)
    ensures |args| != 1 ==> prints == HelpOutput(reg, args)
    ensures |args| == 1 && (Registered(reg, args[0]) || args[0] !in PrototypeNames) ==>
              prints == HelpOutput(reg, args)
  {
    if |args| == 1 && !Registered(reg, args[0]) && args[0] in PrototypeNames then
      [Undocumented(args[0])]
    else HelpOutput(reg, args)
  }

  /** As written, `help` on an Object.prototype member that is no command
      describes it as an undocumented command; the corrected HelpOutput says
      that no help is available. */
  lemma HelpPrototypeName(reg: Registry, name: JsString)
    requires name in PrototypeNames && !Registered(reg, name)
    ensures HelpOutputAsWritten(reg, [name]) == [Undocumented(name)]
    ensures HelpOutput(reg, [name]) == [NO_HELP]
  {
  }

  /** "toString" is such a line: no command has that name, and as written
      it is called rather than reported. */
  lemma ToStringDispatched()
    ensures RunCommandAsWritten(Commands, Lit("toString")) == Invoke(Lit("toString"), [])
    ensures RunCommand(Commands, Lit("toString")) == Show(Lit("toString") + NOT_FOUND)
  {
    var name := Lit("toString");
    assert NoSpace(name);
    assert !Registered(Commands, name) by {
      forall k | 0 <= k < |Commands| ensures Commands[k].name != name {
        assert Commands[k].name[0] != name[0] || |Commands[k].name| != |name|;
      }
    }
    PrototypeNameDispatched(Commands, name);
  }
}
