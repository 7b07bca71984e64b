/**
 * The import guard that keeps the transport-neutral core free of web
 * frameworks and of the transports: every `import` and `from ... import`
 * in a core file is checked against a list of forbidden module prefixes,
 * and the run fails when any file has a violation.
 *
 * Parsing a file (`ast.parse` and `ast.walk`) and finding the files
 * (`rglob`) are parameters: a file is its path with the import nodes of
 * its syntax tree in walk order.
 */
module CoreImports {
  import opened Wrappers
  import opened Text
  import opened Lists

  /** `FORBIDDEN_PREFIXES`. */
  const ForbiddenPrefixes: seq<string> :=
    ["fastapi", "starlette", "uvicorn", "mcp.server.fastmcp", "mcp.server", "fastmcp",
     "openproject_mcp.transports"]

  /** A module is the prefix itself or lies below it: the prefix followed by a dot. */
  predicate UnderPrefix(modName: string, prefix: string)
  {
    modName == prefix || StartsWith(modName, prefix + ".")
  }

  /** `is_forbidden(module)`. */
  predicate IsForbidden(modName: string)
  {
    exists i :: 0 <= i < |ForbiddenPrefixes| && UnderPrefix(modName, ForbiddenPrefixes[i])
  }

  /** Everything below a forbidden prefix, at any depth, is forbidden. */
  lemma SubmoduleForbidden(i: nat, rest: string)
    requires i < |ForbiddenPrefixes|
    ensures IsForbidden(ForbiddenPrefixes[i] + "." + rest)
  {
    var p := ForbiddenPrefixes[i];
    assert (p + "." + rest)[..|p + "."|] == p + ".";
  }

  /** The prefix test stops at a dot: `starlette.routing` is forbidden. */
  lemma StarletteRoutingForbidden()
    ensures IsForbidden("starlette.routing")
  {
    SubmoduleForbidden(1, "routing");
    assert ForbiddenPrefixes[1] + "." + "routing" == "starlette.routing";
  }

  /** ... and a module that merely starts with the same letters, `starlettex`, is not. */
  lemma StarlettexAllowed()
    ensures !IsForbidden("starlettex")
  {
    var m := "starlettex";
    forall i | 0 <= i < |ForbiddenPrefixes|
      ensures !UnderPrefix(m, ForbiddenPrefixes[i])
    {
      var p := ForbiddenPrefixes[i];
      if i == 1 {
        assert m[9] == 'x';
        assert |p + "."| == 10 && (p + ".")[9] == '.';
      } else {
        assert p[0] != 's' || |p| > |m|;
        assert m[0] == 's';
      }
    }
  }

  /** The nodes of a syntax tree the guard looks at. */
  datatype Node =
    | Import(names: seq<string>)          // `import a, b.c`: the imported names
    | ImportFrom(modName: Option<string>) // `from m import x`; no module for `from . import x`
    | Other

  /** The message for one violation. */
  function ErrorText(path: string, modName: string): string
  {
    path + ": forbidden import '" + modName + "'"
  }

  /** Different modules give different messages for the same file. */
  lemma ErrorTextInjective(path: string, a: string, b: string)
    requires ErrorText(path, a) == ErrorText(path, b)
    ensures a == b
  {
    var pre := path + ": forbidden import '";
    assert ErrorText(path, a) == pre + a + "'";
    assert ErrorText(path, b) == pre + b + "'";
    assert |a| == |b|;
    assert a == ErrorText(path, a)[|pre|..|pre| + |a|];
    assert b == ErrorText(path, b)[|pre|..|pre| + |b|];
  }

  /** The messages one node contributes; `node.module or ""` for a `from` import. */
  function NodeErrors(path: string, node: Node): seq<string>
  {
    match node
    case Import(names) => Map(Filter(names, IsForbidden), (m: string) => ErrorText(path, m))
    case ImportFrom(modName) =>
      var m := modName.GetOr("");
      if m != "" && IsForbidden(m) then [ErrorText(path, m)] else []
    case Other => []
  }

  /** The messages of a whole file, node by node in walk order. */
  function FileErrors(path: string, nodes: seq<Node>): seq<string>
  {
    if nodes == [] then [] else FileErrors(path, nodes[..|nodes| - 1]) + NodeErrors(path, nodes[|nodes| - 1])
  }

  /** The node imports the module by name or by `from`. */
  predicate NodeImports(node: Node, modName: string)
  {
    (node.Import? && modName in node.names) || (node.ImportFrom? && node.modName == Some(modName))
  }

  /** Some node of the file imports the module. */
  predicate Imports(nodes: seq<Node>, modName: string)
  {
    exists i :: 0 <= i < |nodes| && NodeImports(nodes[i], modName)
  }

  /** The inner loop of `scan_file`, over the names of one `import` statement. */
  method ScanImport(path: string, names: seq<string>) returns (errors: seq<string>)
    ensures errors == NodeErrors(path, Import(names))
  {
    errors := [];
    var j := 0;
    while j < |names|
      invariant 0 <= j <= |names|
      invariant errors == NodeErrors(path, Import(names[..j]))
    {
      var m := names[j];
      ImportErrorsSnoc(path, names, j);
      if IsForbidden(m) {
        errors := errors + [ErrorText(path, m)];
      }
      j := j + 1;
    }
    assert names[..j] == names;
  }

  /** One more name of an `import` adds its message when it is forbidden. */
  lemma ImportErrorsSnoc(path: string, names: seq<string>, j: nat)
    requires j < |names|
    ensures NodeErrors(path, Import(names[..j + 1])) ==
              NodeErrors(path, Import(names[..j])) + (if IsForbidden(names[j]) then [ErrorText(path, names[j])] else [])
  {
    FilterSnoc(names, j, IsForbidden);
    MapAppend(Filter(names[..j], IsForbidden), if IsForbidden(names[j]) then [names[j]] else [],
              (m: string) => ErrorText(path, m));
  }

  /**
   * `scan_file(path)` on the file's import nodes: each `import` name and
   * each absolute `from` module is checked, in walk order.
   */
  method ScanFile(path: string, nodes: seq<Node>) returns (errors: seq<string>)
    ensures errors == FileErrors(path, nodes)
  {
    errors := [];
    var i := 0;
    while i < |nodes|
      invariant 0 <= i <= |nodes|
      invariant errors == FileErrors(path, nodes[..i])
    {
      assert nodes[..i + 1][..i] == nodes[..i];
      var found: seq<string>;
      match nodes[i] {
        case Import(names) =>
          found := ScanImport(path, names);
        case ImportFrom(modName) =>
          var m := modName.GetOr("");
          found := if m != "" && IsForbidden(m) then [ErrorText(path, m)] else [];
        case Other =>
          found := [];
      }
      errors := errors + found;
      i := i + 1;
    }
    assert nodes[..i] == nodes;
  }

  /** One node's messages are those of the forbidden modules it imports. */
  lemma NodeErrorsMeaning(path: string, node: Node, modName: string)
    requires modName != ""
    ensures ErrorText(path, modName) in NodeErrors(path, node) <==> IsForbidden(modName) && NodeImports(node, modName)
  {
    if node.Import? {
      var f := (m: string) => ErrorText(path, m);
      var kept := Filter(node.names, IsForbidden);
      FilterMembers(node.names, IsForbidden);
      if ErrorText(path, modName) in NodeErrors(path, node) {
        var k :| 0 <= k < |kept| && Map(kept, f)[k] == ErrorText(path, modName);
        ErrorTextInjective(path, kept[k], modName);
        assert kept[k] in kept;
      }
      if IsForbidden(modName) && modName in node.names {
        var k :| 0 <= k < |kept| && kept[k] == modName;
        assert Map(kept, f)[k] == ErrorText(path, modName);
      }
    } else if node.ImportFrom? {
      if ErrorText(path, modName) in NodeErrors(path, node) {
        ErrorTextInjective(path, node.modName.GetOr(""), modName);
      }
    }
  }

  /** A file imports a module when its last node does or the nodes before it do. */
  lemma ImportsSnoc(nodes: seq<Node>, modName: string)
    requires nodes != []
    ensures Imports(nodes, modName) <==>
              Imports(nodes[..|nodes| - 1], modName) || NodeImports(nodes[|nodes| - 1], modName)
  {
    var init := nodes[..|nodes| - 1];
    assert forall i :: 0 <= i < |init| ==> init[i] == nodes[i];
  }

  /**
   * A file's messages name exactly the forbidden modules it imports: a
   * message for a module is there exactly when some `import` names it or
   * some absolute `from` imports from it, and the module is forbidden. A
   * relative `from . import` is never reported.
   */
  lemma {:induction false} FileErrorsMeaning(path: string, nodes: seq<Node>, modName: string)
    requires modName != ""
    ensures ErrorText(path, modName) in FileErrors(path, nodes) <==> IsForbidden(modName) && Imports(nodes, modName)
    decreases |nodes|
  {
    if nodes != [] {
      FileErrorsMeaning(path, nodes[..|nodes| - 1], modName);
      NodeErrorsMeaning(path, nodes[|nodes| - 1], modName);
      ImportsSnoc(nodes, modName);
    }
  }

  /** A relative `from . import` adds nothing. */
  lemma RelativeImportIgnored(path: string, nodes: seq<Node>)
    ensures FileErrors(path, nodes + [ImportFrom(None)]) == FileErrors(path, nodes)
  {
    assert (nodes + [ImportFrom(None)])[..|nodes|] == nodes;
  }

  /** The messages of every file, in the order the files were found. */
  function AllErrors(files: seq<(string, seq<Node>)>): seq<string>
  {
    if files == [] then [] else AllErrors(files[..|files| - 1]) + FileErrors(files[|files| - 1].0, files[|files| - 1].1)
  }

  /**
   * `main()` on the files found under the core directory: the violations
   * of every file collected in order, and exit status 1 when there are any,
   * 0 otherwise.
   */
  method CheckCore(files: seq<(string, seq<Node>)>) returns (status: int, violations: seq<string>)
    ensures violations == AllErrors(files)
    ensures status == (if violations == [] then 0 else 1)
  {
    violations := [];
    var i := 0;
    while i < |files|
      invariant 0 <= i <= |files|
      invariant violations == AllErrors(files[..i])
    {
      var errors := ScanFile(files[i].0, files[i].1);
      assert files[..i + 1][..i] == files[..i];
      violations := violations + errors;
      i := i + 1;
    }
    assert files[..i] == files;
    if violations != [] {
      return 1, violations;
    }
    return 0, violations;
  }

  /** The run fails exactly when some file has a violation. */
  lemma {:induction false} FailsIffSomeFileViolates(files: seq<(string, seq<Node>)>)
    ensures AllErrors(files) != [] <==> exists i :: 0 <= i < |files| && FileErrors(files[i].0, files[i].1) != []
    decreases |files|
  {
    if files != [] {
      var init := files[..|files| - 1];
      FailsIffSomeFileViolates(init);
      assert forall i :: 0 <= i < |init| ==> init[i] == files[i];
    }
  }
}
