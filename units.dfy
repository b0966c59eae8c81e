/**
 * Where the systemd controller puts its unit file and drop-in
 * configuration, and what the unit file says (src/controller/linux.rs).
 */
module Units {
  import opened Wrappers
  import opened Lib

  /** `PathBuf::join` on Unix: a component that starts with `/` replaces the
      base; otherwise a separator is inserted unless the base is empty or
      already ends with one. */
  function Join(base: string, component: string): (r: string)
    ensures |component| > 0 && component[0] == '/' ==> r == component
    ensures (|component| == 0 || component[0] != '/') && (|base| == 0 || base[|base| - 1] == '/')
            ==> r == base + component
    ensures (|component| == 0 || component[0] != '/') && |base| > 0 && base[|base| - 1] != '/'
            ==> r == base + "/" + component
  {
    if |component| > 0 && component[0] == '/' then component
    else if |base| == 0 || base[|base| - 1] == '/' then base + component
    else base + "/" + component
  }

  const UnitDirectory: string := "/lib/systemd/system/"

  /** The identity of a service as the controller holds it. */
  datatype Controller = Controller(
    serviceName: string,
    displayName: string,
    description: string,
    config: Option<string>)
  {
    /** `get_service_file_name`: the service name with the unit suffix. */
    function FileName(): (r: string)
      ensures |r| == |serviceName| + 8 && r[..|serviceName|] == serviceName && r[|serviceName|..] == ".service"
    {
      serviceName + ".service"
    }

    /** `get_service_unit_path`: the file name inside the unit directory,
        unless `join` takes an absolute service name as the whole path. */
    function UnitPath(): (r: string)
      ensures Relative(serviceName) ==> r == UnitDirectory + FileName()
      ensures !Relative(serviceName) ==> r == FileName()
    {
      var f := FileName();
      assert |serviceName| == 0 ==> f[0] == '.';
      assert |serviceName| > 0 ==> f[0] == serviceName[0];
      Join(UnitDirectory, f)
    }

    /** `get_service_dropin_dir`: always the unit path followed by `.d`,
        even for a name that `join` treats as absolute. */
    function DropinDir(): (r: string)
      ensures r == UnitPath() + ".d"
    {
      var f := FileName();
      assert (f + ".d")[0] == f[0];
      Join(UnitDirectory, f + ".d")
    }

    /** The drop-in configuration file that `write_service_config` writes:
        `<name>.conf` inside the drop-in directory, for a relative name. */
    function DropinConfigPath(): (r: string)
      ensures Relative(serviceName) ==> r == DropinDir() + "/" + serviceName + ".conf"
      ensures !Relative(serviceName) ==> r == serviceName + ".conf"
    {
      var d := DropinDir();
      var conf := serviceName + ".conf";
      assert d[|d| - 1] == 'd';
      assert |serviceName| == 0 ==> conf[0] == '.';
      assert |serviceName| > 0 ==> conf[0] == serviceName[0];
      Join(d, conf)
    }
  }

  /** `LinuxController::new`: no configuration. */
  function NewController(serviceName: string, displayName: string, description: string): (c: Controller)
    ensures c.serviceName == serviceName && c.displayName == displayName
    ensures c.description == description && c.config.None?
  {
    Controller(serviceName, displayName, description, None)
  }

  /** A relative name (one not starting with `/`). */
  predicate Relative(name: string)
  {
    |name| == 0 || name[0] != '/'
  }

  /** The unit file of a service with a relative name lies in the systemd
      unit directory and is called after the service. */
  lemma UnitPathShape(c: Controller)
    requires Relative(c.serviceName)
    ensures c.UnitPath() == "/lib/systemd/system/" + c.serviceName + ".service"
  {
  }

  /** For a service name without `/` the drop-in configuration is the file
      `<name>.conf` inside the drop-in directory. */
  lemma DropinConfigShape(c: Controller)
    requires Relative(c.serviceName)
    ensures c.DropinConfigPath() == "/lib/systemd/system/" + c.serviceName + ".service.d/" + c.serviceName + ".conf"
  {
    UnitPathShape(c);
  }

  /** The outcome of reading the link `/proc/self/exe`. */
  datatype ExeLink =
    | Link(path: string)          // a link whose target is valid Unicode
    | ReadFailed(cause: string)   // the link could not be read
    | NotUnicode                  // the target is not valid Unicode

  /** The literal lines of the unit file's template. */
  const UnitSection: string := "[Unit]"
  const DescriptionKey: string := "Description="
  const ServiceSection: string := "[Service]"
  const ExecStartKey: string := "ExecStart="
  const InstallSection: string := "[Install]"
  const WantedBy: string := "WantedBy=multi-user.target"

  /** The template (a raw string that starts with a line break) cut at its
      two placeholders: it opens with an empty line, and an empty line
      separates the sections. */
  const UnitHead: string := "\n" + UnitSection + "\n" + DescriptionKey
  const UnitMiddle: string := "\n" + "\n" + ServiceSection + "\n" + ExecStartKey
  const UnitTail: string := "\n" + "\n" + InstallSection + "\n" + WantedBy

  /** `get_service_unit_content`: the description line carries the service
      name; the executable is the target of `/proc/self/exe`. */
  function UnitContent(c: Controller, exe: ExeLink): (r: Result<string, Error>)
    ensures exe.ReadFailed? ==> r == Err(NewError("Failed to read /proc/self/exe: " + exe.cause))
    ensures exe.NotUnicode? ==> r == Err(ErrorFrom("Failed to parse /proc/self/exe"))
  {
    match exe
    case ReadFailed(cause) => Err(NewError("Failed to read /proc/self/exe: " + cause))
    case NotUnicode => Err(ErrorFrom("Failed to parse /proc/self/exe"))
    case Link(path) => Ok(UnitHead + c.serviceName + UnitMiddle + path + UnitTail)
  }

  /** `write_service_config`, with the outcome of each file operation given:
      `None` for success, or the display of the I/O error. It builds the
      unit content, writes it to the unit path and, only when the controller
      has a configuration, creates the drop-in directory and writes the
      configuration into it. The first failure is reported; the message for
      a failed directory creation names the configuration file's path. */
  function WriteServiceConfig(c: Controller, exe: ExeLink, unitWrite: Option<string>,
                              dirCreate: Option<string>, configWrite: Option<string>): (r: Result<(), Error>)
    ensures r.Ok? <==>
      UnitContent(c, exe).Ok? && unitWrite.None? && (c.config.Some? ==> dirCreate.None? && configWrite.None?)
    ensures UnitContent(c, exe).Err? ==> r == Err(UnitContent(c, exe).error)
    ensures UnitContent(c, exe).Ok? && unitWrite.Some? ==>
      r == Err(NewError("Failed to write " + c.UnitPath() + ": " + unitWrite.value))
    ensures UnitContent(c, exe).Ok? && unitWrite.None? && c.config.Some? && dirCreate.Some? ==>
      r == Err(NewError("Failed to create " + c.DropinConfigPath() + ": " + dirCreate.value))
    ensures UnitContent(c, exe).Ok? && unitWrite.None? && c.config.Some? && dirCreate.None? && configWrite.Some? ==>
      r == Err(NewError("Failed to write " + c.DropinConfigPath() + ": " + configWrite.value))
  {
    match UnitContent(c, exe)
    case Err(e) => Err(e)
    case Ok(_) =>
      if unitWrite.Some? then Err(NewError("Failed to write " + c.UnitPath() + ": " + unitWrite.value))
      else if c.config.None? then Ok(())
      else
        var path := c.DropinConfigPath();
        if dirCreate.Some? then Err(NewError("Failed to create " + path + ": " + dirCreate.value))
        else if configWrite.Some? then Err(NewError("Failed to write " + path + ": " + configWrite.value))
        else Ok(())
  }

  /** A controller without configuration never touches the drop-in directory:
      its outcomes do not matter. */
  lemma WriteWithoutConfigIgnoresDropin(c: Controller, exe: ExeLink, unitWrite: Option<string>,
                                        d1: Option<string>, w1: Option<string>, d2: Option<string>, w2: Option<string>)
    requires c.config.None?
    ensures WriteServiceConfig(c, exe, unitWrite, d1, w1) == WriteServiceConfig(c, exe, unitWrite, d2, w2)
  {
  }

  /** The lines of a text: the pieces between newline characters. */
  function Lines(s: string): (r: seq<string>)
    ensures |r| > 0
  {
    if |s| == 0 then [""]
    else
      var rest := Lines(s[1..]);
      if s[0] == '\n' then [""] + rest else [[s[0]] + rest[0]] + rest[1..]
  }

  lemma {:induction false} LinesNoNewline(a: string)
    requires '\n' !in a
    ensures Lines(a) == [a]
  {
    if |a| > 0 {
      LinesNoNewline(a[1..]);
      assert [a[0]] + a[1..] == a;
    }
  }

  /** A line without a newline, a newline and a text: the line comes first,
      then the lines of the text. */
  lemma {:induction false} LinesAfterLine(a: string, b: string)
    requires '\n' !in a
    ensures Lines(a + "\n" + b) == [a] + Lines(b)
  {
    if |a| == 0 {
      assert a + "\n" + b == "\n" + b;
      assert ("\n" + b)[1..] == b;
    } else {
      assert (a + "\n" + b)[1..] == a[1..] + "\n" + b;
      LinesAfterLine(a[1..], b);
      assert [a[0]] + a[1..] == a;
    }
  }

  /** The lines of the unit file for a service name and an executable. */
  function UnitLines(serviceName: string, path: string): seq<string>
  {
    ["", UnitSection, DescriptionKey + serviceName, "", ServiceSection, ExecStartKey + path,
     "", InstallSection, WantedBy]
  }

  /** For a service name and an executable path without line breaks, the
      unit file consists of exactly the lines of `UnitLines`: a `[Unit]`
      section whose description is the service name (not the description
      given to the controller), a `[Service]` section that runs the
      executable, and an `[Install]` section for the multi-user target. */
  lemma UnitContentLines(c: Controller, path: string)
    requires '\n' !in c.serviceName && '\n' !in path
    ensures UnitContent(c, Link(path)).Ok?
    ensures Lines(UnitContent(c, Link(path)).value) == UnitLines(c.serviceName, path)
  {
    var ls := UnitLines(c.serviceName, path);
    forall i | 0 <= i < |ls| ensures '\n' !in ls[i] {
      assert '\n' !in DescriptionKey + c.serviceName;
      assert '\n' !in ExecStartKey + path;
    }
    LinesOfJoin(ls);
    UnitContentIsJoin(c.serviceName, path);
  }

  /** The lines of `ls` with a newline between each two. */
  function JoinLines(ls: seq<string>): string
    requires |ls| > 0
  {
    if |ls| == 1 then ls[0] else ls[0] + "\n" + JoinLines(ls[1..])
  }

  /** Splitting lines joined by newlines gives the lines back, when none of
      them holds a newline. */
  lemma {:induction false} LinesOfJoin(ls: seq<string>)
    requires |ls| > 0
    requires forall i :: 0 <= i < |ls| ==> '\n' !in ls[i]
    ensures Lines(JoinLines(ls)) == ls
  {
    if |ls| == 1 {
      LinesNoNewline(ls[0]);
    } else {
      LinesOfJoin(ls[1..]);
      LinesAfterLine(ls[0], JoinLines(ls[1..]));
    }
  }

  /** Joining one more line appends a newline and that line. */
  lemma {:induction false} JoinLinesSnoc(ls: seq<string>, x: string)
    requires |ls| > 0
    ensures JoinLines(ls + [x]) == JoinLines(ls) + "\n" + x
  {
    if |ls| > 1 {
      assert (ls + [x])[1..] == ls[1..] + [x];
      JoinLinesSnoc(ls[1..], x);
    }
  }

  /** The unit file is its lines joined by newlines, built up one section
      of the template of `get_service_unit_content` at a time. */
  lemma UnitContentIsJoin(name: string, path: string)
    ensures JoinLines(UnitLines(name, path)) == UnitHead + name + UnitMiddle + path + UnitTail
  {
    var ls := UnitLines(name, path);
    HeadIsJoin(ls, UnitSection, DescriptionKey + name);
    MiddleIsJoin(ls, UnitHead + name, ServiceSection, ExecStartKey, path);
    TailIsJoin(ls, UnitHead + name + UnitMiddle + path, InstallSection, WantedBy);
    assert ls[..9] == ls;
  }

  /** The first three lines (an empty line, a section header and a keyed
      line) make a line break, the header, a line break and the keyed line. */
  lemma HeadIsJoin(ls: seq<string>, section: string, keyed: string)
    requires |ls| == 9 && ls[0] == "" && ls[1] == section && ls[2] == keyed
    ensures JoinLines(ls[..3]) == "\n" + section + "\n" + keyed
  {
    assert ls[..1] == [""];
    JoinLinesSnoc(ls[..1], section);
    assert ls[..2] == ls[..1] + [section];
    JoinLinesSnoc(ls[..2], keyed);
    assert ls[..3] == ls[..2] + [keyed];
  }

  /** The next three lines (an empty line, a section header and a key
      followed by its value) add two line breaks, the header, a line break,
      the key and the value. */
  lemma MiddleIsJoin(ls: seq<string>, head: string, section: string, key: string, value: string)
    requires |ls| == 9 && JoinLines(ls[..3]) == head
    requires ls[3] == "" && ls[4] == section && ls[5] == key + value
    ensures JoinLines(ls[..6]) == head + ("\n" + "\n" + section + "\n" + key) + value
  {
    JoinLinesSnoc(ls[..3], "");
    assert ls[..4] == ls[..3] + [""];
    JoinLinesSnoc(ls[..4], section);
    assert ls[..5] == ls[..4] + [section];
    JoinLinesSnoc(ls[..5], key + value);
    assert ls[..6] == ls[..5] + [key + value];
  }

  /** The last three lines (an empty line, a section header and a fixed
      line) add two line breaks, the header, a line break and the line. */
  lemma TailIsJoin(ls: seq<string>, front: string, section: string, last: string)
    requires |ls| == 9 && JoinLines(ls[..6]) == front
    requires ls[6] == "" && ls[7] == section && ls[8] == last
    ensures JoinLines(ls[..9]) == front + ("\n" + "\n" + section + "\n" + last)
  {
    JoinLinesSnoc(ls[..6], "");
    assert ls[..7] == ls[..6] + [""];
    JoinLinesSnoc(ls[..7], section);
    assert ls[..8] == ls[..7] + [section];
    JoinLinesSnoc(ls[..8], last);
    assert ls[..9] == ls[..8] + [last];
  }

  /** Only the service name and the executable shape the unit file: the
      display name, the description and the configuration do not. */
  lemma UnitContentIgnoresDescription(c1: Controller, c2: Controller, exe: ExeLink)
    requires c1.serviceName == c2.serviceName
    ensures UnitContent(c1, exe) == UnitContent(c2, exe)
  {
  }
}
