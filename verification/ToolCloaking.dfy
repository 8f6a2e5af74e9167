/** Cloaking of tool names towards Antigravity, and back
    (backend/internal/translator/antigravity.go). */
module ToolCloaking {
  import opened Strings

  /** A declaration, with its description and parameters as one value. */
  datatype Decl = Decl(name: string, body: string)

  datatype Part = Plain(text: string) | FunctionCall(name: string, args: string) | FunctionResponse(name: string, response: string)

  datatype Content = Content(role: string, parts: seq<Part>)

  datatype Request = Request(tools: seq<seq<Decl>>, contents: seq<Content>, serverSideTools: bool)

  const SUFFIX := "_ide"

  const NATIVE: seq<string> := [
    "browser_subagent", "command_status", "find_by_name", "generate_image", "grep_search", "list_dir", "list_resources",
    "mcp_sequential-thinking_sequentialthinking", "multi_replace_file_content", "notify_user", "read_resource", "read_terminal",
    "read_url_content", "replace_file_content", "run_command", "search_web", "send_command_input", "task_boundary",
    "view_content_chunk", "view_file", "write_to_file"]

  function Decoy(name: string): Decl {
    Decl(name, "This tool is currently unavailable.")
  }

  /** The decoys bear the native names. */
  function Decoys(): seq<Decl> {
    seq(|NATIVE|, i requires 0 <= i < |NATIVE| => Decoy(NATIVE[i]))
  }

  predicate Native(name: string) {
    name in NATIVE
  }

  function Cloak(name: string): string {
    if Native(name) then name else name + SUFFIX
  }

  /** `UncloakToolName`; no map and an empty map do the same. */
  function Uncloak(name: string, toolMap: map<string, string>): string {
    if name in toolMap then toolMap[name] else TrimSuffix(name, SUFFIX)
  }

  /** What becomes of one client declaration: nothing of a native one when the client is Copilot. */
  function CloakedDecl(d: Decl, copilot: bool): seq<Decl> {
    if copilot && Native(d.name) then [] else [d.(name := Cloak(d.name))]
  }

  function CloakedDecls(ds: seq<Decl>, copilot: bool): seq<Decl> {
    if ds == [] then [] else CloakedDecls(ds[..|ds| - 1], copilot) + CloakedDecl(ds[|ds| - 1], copilot)
  }

  function Flat(groups: seq<seq<Decl>>): seq<Decl> {
    if groups == [] then [] else Flat(groups[..|groups| - 1]) + groups[|groups| - 1]
  }

  /** The first declaration of each non-empty name. */
  function FirstOfEachName(ds: seq<Decl>): seq<Decl> {
    if ds == [] then []
    else
      var before, d := FirstOfEachName(ds[..|ds| - 1]), ds[|ds| - 1];
      if d.name == "" || exists e :: e in before && e.name == d.name then before else before + [d]
  }

  function CloakedPart(p: Part): Part {
    match p
    case Plain(_) => p
    case FunctionCall(name, args) => FunctionCall(Cloak(name), args)
    case FunctionResponse(name, response) => FunctionResponse(Cloak(name), response)
  }

  function CloakedParts(ps: seq<Part>): seq<Part> {
    seq(|ps|, i requires 0 <= i < |ps| => CloakedPart(ps[i]))
  }

  function CloakedContents(cs: seq<Content>): seq<Content> {
    seq(|cs|, i requires 0 <= i < |cs| => Content(cs[i].role, CloakedParts(cs[i].parts)))
  }

  /** The cloaked name of every non-native tool declared, with the name it stands for. */
  function ToolMap(ds: seq<Decl>): map<string, string> {
    if ds == [] then map[]
    else
      var before, name := ToolMap(ds[..|ds| - 1]), ds[|ds| - 1].name;
      if Native(name) then before else before[name + SUFFIX := name]
  }

  predicate AnyNative(ds: seq<Decl>) {
    ds != [] && (AnyNative(ds[..|ds| - 1]) || Native(ds[|ds| - 1].name))
  }

  predicate AnyClient(ds: seq<Decl>) {
    ds != [] && (AnyClient(ds[..|ds| - 1]) || !Native(ds[|ds| - 1].name))
  }

  function Declared(ds: seq<Decl>, copilot: bool): seq<Decl> {
    FirstOfEachName(CloakedDecls(ds, copilot) + Decoys())
  }

  /** The request sent and the map for its answer; a request without tools goes as it is. */
  function CloakedRequest(req: Request, copilot: bool): (Request, map<string, string>) {
    if req.tools == [] then (req, map[]) else
    var ds := Flat(req.tools);
    (Request([Declared(ds, copilot)], CloakedContents(req.contents),
             !copilot && AnyNative(ds) && AnyClient(ds)),
     ToolMap(ds))
  }

  // ----- the passes over the request -----

  lemma {:induction false} OneMore(done: seq<Decl>, d: Decl, copilot: bool)
    ensures CloakedDecls(done + [d], copilot) == CloakedDecls(done, copilot) + CloakedDecl(d, copilot)
    ensures ToolMap(done + [d]) == if Native(d.name) then ToolMap(done) else ToolMap(done)[d.name + SUFFIX := d.name]
    ensures AnyNative(done + [d]) <==> AnyNative(done) || Native(d.name)
    ensures AnyClient(done + [d]) <==> AnyClient(done) || !Native(d.name)
  {
    hide Native;
    assert (done + [d])[..|done|] == done;
  }

  method CollectDecls(tools: seq<seq<Decl>>, copilot: bool)
    returns (clientDecls: seq<Decl>, toolMap: map<string, string>, hasNativeTool: bool, hasClientFunction: bool)
    ensures clientDecls == CloakedDecls(Flat(tools), copilot)
    ensures toolMap == ToolMap(Flat(tools))
    ensures hasNativeTool <==> !copilot && AnyNative(Flat(tools))
    ensures hasClientFunction <==> AnyClient(Flat(tools))
  {
    hide Native, CloakedDecls, ToolMap, AnyNative, AnyClient;
    clientDecls, toolMap, hasNativeTool, hasClientFunction := [], map[], false, false;
    NothingCollected(copilot);
    for i := 0 to |tools|
      invariant clientDecls == CloakedDecls(Flat(tools[..i]), copilot)
      invariant toolMap == ToolMap(Flat(tools[..i]))
      invariant hasNativeTool <==> !copilot && AnyNative(Flat(tools[..i]))
      invariant hasClientFunction <==> AnyClient(Flat(tools[..i]))
    {
      assert tools[..i + 1][..i] == tools[..i];
      ghost var before := Flat(tools[..i]);
      var group := tools[i];
      assert before + group[..0] == before;
      for k := 0 to |group|
        invariant clientDecls == CloakedDecls(before + group[..k], copilot)
        invariant toolMap == ToolMap(before + group[..k])
        invariant hasNativeTool <==> !copilot && AnyNative(before + group[..k])
        invariant hasClientFunction <==> AnyClient(before + group[..k])
      {
        var fn := group[k];
        assert before + group[..k + 1] == before + group[..k] + [fn];
        OneMore(before + group[..k], fn, copilot);
        if copilot && Native(fn.name) {
          continue;
        }
        if Native(fn.name) {
          hasNativeTool := true;
          clientDecls := clientDecls + [fn];
          continue;
        }
        hasClientFunction := true;
        var suffixedName := fn.name + SUFFIX;
        toolMap := toolMap[suffixedName := fn.name];
        clientDecls := clientDecls + [fn.(name := suffixedName)];
      }
      assert group[..|group|] == group;
    }
    assert tools[..|tools|] == tools;
  }

  lemma {:induction false} NothingCollected(copilot: bool)
    ensures CloakedDecls([], copilot) == [] && ToolMap([]) == map[] && !AnyNative([]) && !AnyClient([])
  {
  }

  method Deduplicate(ds: seq<Decl>) returns (allDecls: seq<Decl>)
    ensures allDecls == FirstOfEachName(ds)
  {
    allDecls := [];
    var seen: set<string> := {};
    for i := 0 to |ds|
      invariant allDecls == FirstOfEachName(ds[..i])
      invariant forall n :: n in seen <==> exists e :: e in allDecls && e.name == n
    {
      assert ds[..i + 1][..i] == ds[..i];
      if ds[i].name == "" || ds[i].name in seen {
        continue;
      }
      seen := seen + {ds[i].name};
      allDecls := allDecls + [ds[i]];
    }
    assert ds[..|ds|] == ds;
  }

  method CloakHistory(contents: seq<Content>) returns (cloaked: seq<Content>)
    ensures cloaked == CloakedContents(contents)
  {
    cloaked := [];
    for i := 0 to |contents|
      invariant cloaked == CloakedContents(contents[..i])
    {
      var parts := [];
      for j := 0 to |contents[i].parts|
        invariant parts == CloakedParts(contents[i].parts[..j])
      {
        var p := contents[i].parts[j];
        if p.FunctionCall? && !Native(p.name) {
          p := FunctionCall(p.name + SUFFIX, p.args);
        } else if p.FunctionResponse? && !Native(p.name) {
          p := FunctionResponse(p.name + SUFFIX, p.response);
        }
        parts := parts + [p];
      }
      assert contents[i].parts[..|contents[i].parts|] == contents[i].parts;
      cloaked := cloaked + [Content(contents[i].role, parts)];
    }
    assert contents[..|contents|] == contents;
  }

  /** `CloakAntigravityRequest`. */
  method CloakAntigravityRequest(req: Request, clientTool: string) returns (res: Request, toolMap: map<string, string>)
    ensures (res, toolMap) == CloakedRequest(req, clientTool == "github-copilot")
  {
    if req.tools == [] {
      return req, map[];
    }
    var isCopilot := clientTool == "github-copilot";
    var clientDecls, hasNativeTool, hasClientFunction;
    clientDecls, toolMap, hasNativeTool, hasClientFunction := CollectDecls(req.tools, isCopilot);
    var allDecls := Deduplicate(clientDecls + Decoys());
    var contents := CloakHistory(req.contents);
    res := Request([allDecls], contents, hasNativeTool && hasClientFunction);
  }

  // ----- cloaking is undone -----

  lemma {:induction false} NativeIsNeverSuffixed(name: string)
    ensures !Native(name + SUFFIX)
    ensures Native(name) ==> !HasSuffix(name, SUFFIX)
  {
    var s := name + SUFFIX;
    assert s[|s| - 1] == 'e' && s[|s| - 2] == 'd' && s[|s| - 3] == 'i' && s[|s| - 4] == '_';
    assert HasSuffix(name, SUFFIX) ==> name[|name| - 4] == '_' && name[|name| - 3] == 'i' by {
      assert HasSuffix(name, SUFFIX) ==> name[|name| - 4..][0] == '_' && name[|name| - 4..][1] == 'i';
    }
    assert forall i :: 0 <= i < |NATIVE| ==> |NATIVE[i]| > 4 && !(NATIVE[i][|NATIVE[i]| - 4] == '_' && NATIVE[i][|NATIVE[i]| - 3] == 'i');
  }

  /** Every entry leads from a cloaked name to the name it was made of. */
  ghost predicate Consistent(toolMap: map<string, string>) {
    forall k :: k in toolMap ==> k == toolMap[k] + SUFFIX
  }

  lemma {:induction false} ToolMapIsConsistent(ds: seq<Decl>)
    ensures Consistent(ToolMap(ds))
    ensures forall d :: d in ds && !Native(d.name) ==> d.name + SUFFIX in ToolMap(ds)
  {
    if ds != [] {
      ToolMapIsConsistent(ds[..|ds| - 1]);
      assert ds == ds[..|ds| - 1] + [ds[|ds| - 1]];
    }
  }

  lemma {:induction false} SuffixTrims(name: string)
    ensures TrimSuffix(name + SUFFIX, SUFFIX) == name
  {
    var s := name + SUFFIX;
    assert s[|s| - |SUFFIX|..] == SUFFIX && s[..|s| - |SUFFIX|] == name;
  }

  /** Every name, declared in the request or not, comes back; the map is not even needed. */
  lemma {:induction false} UncloakUndoesCloak(name: string, req: Request, copilot: bool)
    ensures Uncloak(Cloak(name), CloakedRequest(req, copilot).1) == name
    ensures Uncloak(Cloak(name), map[]) == name
  {
    var toolMap := CloakedRequest(req, copilot).1;
    ToolMapIsConsistent(Flat(req.tools));
    hide Native;
    NativeIsNeverSuffixed(name);
    SuffixTrims(name);
    forall k | k in toolMap ensures HasSuffix(k, SUFFIX) && TrimSuffix(k, SUFFIX) == toolMap[k] {
      SuffixTrims(toolMap[k]);
    }
  }

  /** A name that was never cloaked, as in a request without tools, survives exactly when
      it does not itself end in the suffix. */
  lemma {:induction false} UncloakedSurvivesIffUnsuffixed(name: string)
    ensures Uncloak(name, map[]) == name <==> !HasSuffix(name, SUFFIX)
  {
    assert HasSuffix(name, SUFFIX) ==> |TrimSuffix(name, SUFFIX)| < |name|;
  }

  lemma {:induction false} CloakIsInjective(a: string, b: string)
    requires Cloak(a) == Cloak(b)
    ensures a == b
  {
    UncloakUndoesCloak(a, Request([], [], false), false);
    UncloakUndoesCloak(b, Request([], [], false), false);
  }

  // ----- what is declared -----

  ghost predicate DistinctNames(ds: seq<Decl>) {
    forall i, j :: 0 <= i < j < |ds| ==> ds[i].name != ds[j].name
  }

  lemma {:induction false} FirstsAreDistinct(ds: seq<Decl>)
    ensures DistinctNames(FirstOfEachName(ds))
    ensures forall d :: d in FirstOfEachName(ds) ==> d in ds && d.name != ""
  {
    if ds != [] {
      FirstsAreDistinct(ds[..|ds| - 1]);
    }
  }

  /** A declaration that is the first of its name is kept as it is. */
  lemma {:induction false} FirstIsKept(ds: seq<Decl>, i: nat)
    requires i < |ds| && ds[i].name != "" && forall j :: 0 <= j < i ==> ds[j].name != ds[i].name
    ensures ds[i] in FirstOfEachName(ds)
  {
    var n := |ds| - 1;
    FirstsAreDistinct(ds[..n]);
    if i < n {
      FirstIsKept(ds[..n], i);
    }
  }

  /** The first declaration of the name that `ds[k]` has. */
  lemma {:induction false} FirstOfName(ds: seq<Decl>, k: nat) returns (i: nat)
    requires k < |ds|
    ensures i <= k && ds[i].name == ds[k].name && forall j :: 0 <= j < i ==> ds[j].name != ds[k].name
  {
    i := 0;
    while ds[i].name != ds[k].name
      invariant i <= k && forall j :: 0 <= j < i ==> ds[j].name != ds[k].name
      decreases k - i
    {
      i := i + 1;
    }
  }

  /** Some declaration before position `n` has `name` as its cloaked name. */
  ghost predicate CloaksTo(ds: seq<Decl>, n: nat, name: string)
    requires n <= |ds|
  {
    exists p :: 0 <= p < n && name == Cloak(ds[p].name)
  }

  lemma {:induction false} CloaksFurther(ds: seq<Decl>, m: nat, n: nat, name: string)
    requires n <= m <= |ds| && CloaksTo(ds[..m], n, name)
    ensures CloaksTo(ds, n, name)
  {
    hide Cloak;
    var p :| 0 <= p < n && name == Cloak(ds[..m][p].name);
    assert name == Cloak(ds[p].name);
  }

  /** Where a kept declaration ends up, and that only earlier ones come before it. */
  lemma {:induction false} CloakedDeclAt(ds: seq<Decl>, i: nat, copilot: bool) returns (k: nat)
    requires i < |ds| && !(copilot && Native(ds[i].name))
    ensures k < |CloakedDecls(ds, copilot)| && CloakedDecls(ds, copilot)[k] == ds[i].(name := Cloak(ds[i].name))
    ensures forall j :: 0 <= j < k ==> CloaksTo(ds, i, CloakedDecls(ds, copilot)[j].name)
  {
    hide CloakedDecls, Cloak, Native, CloaksTo;
    var n := |ds| - 1;
    var before := CloakedDecls(ds[..n], copilot);
    OneMore(ds[..n], ds[n], copilot);
    assert ds == ds[..n] + [ds[n]];
    if i < n {
      k := CloakedDeclAt(ds[..n], i, copilot);
    } else {
      k := |before|;
      CloakedNames(ds[..n], copilot);
    }
    forall j | 0 <= j < k ensures CloaksTo(ds, i, CloakedDecls(ds, copilot)[j].name) {
      CloaksFurther(ds, n, i, before[j].name);
    }
  }

  lemma {:induction false} CloakedNames(ds: seq<Decl>, copilot: bool)
    ensures forall j :: 0 <= j < |CloakedDecls(ds, copilot)| ==> CloaksTo(ds, |ds|, CloakedDecls(ds, copilot)[j].name)
  {
    hide Cloak, Native;
    if ds != [] {
      var n := |ds| - 1;
      CloakedNames(ds[..n], copilot);
      forall j | 0 <= j < |CloakedDecls(ds, copilot)| ensures CloaksTo(ds, n + 1, CloakedDecls(ds, copilot)[j].name) {
        var name := CloakedDecls(ds, copilot)[j].name;
        if j < |CloakedDecls(ds[..n], copilot)| {
          CloaksFurther(ds, n, n, name);
        } else {
          assert name == Cloak(ds[n].name);
        }
      }
    } else {
      assert CloakedDecls(ds, copilot) == [];
    }
  }

  /** Names are declared once, and none but native and suffixed ones. */
  lemma {:induction false} DeclaredNames(ds: seq<Decl>, copilot: bool)
    ensures DistinctNames(Declared(ds, copilot))
    ensures forall d :: d in Declared(ds, copilot) ==> Native(d.name) || HasSuffix(d.name, SUFFIX)
  {
    hide Native, Cloak, HasSuffix, DistinctNames, FirstOfEachName, CloakedDecls, Decoys;
    var client := CloakedDecls(ds, copilot);
    FirstsAreDistinct(client + Decoys());
    forall d | d in Declared(ds, copilot) ensures Native(d.name) || HasSuffix(d.name, SUFFIX) {
      CloakedNames(ds, copilot);
      DecoysAreNative();
      if d in client {
        var j :| 0 <= j < |client| && client[j] == d;
        assert CloaksTo(ds, |ds|, client[j].name);
        var p :| 0 <= p < |ds| && client[j].name == Cloak(ds[p].name);
        SuffixIsThere(ds[p].name);
      }
    }
  }

  lemma {:induction false} DecoysAreNative()
    ensures |Decoys()| == |NATIVE|
    ensures forall q :: 0 <= q < |NATIVE| ==> Decoys()[q] == Decoy(NATIVE[q])
    ensures forall d :: d in Decoys() ==> Native(d.name)
  {
  }

  /** Every native name is declared. */
  lemma {:induction false} DecoysAreDeclared(ds: seq<Decl>, copilot: bool, name: string)
    requires Native(name)
    ensures exists d :: d in Declared(ds, copilot) && d.name == name
  {
    hide CloakedDecls, Decoys, FirstOfEachName;
    var client := CloakedDecls(ds, copilot);
    var all := client + Decoys();
    DecoysAreNative();
    var q :| 0 <= q < |NATIVE| && NATIVE[q] == name;
    assert all[|client| + q] == Decoy(name);
    var i := FirstOfName(all, |client| + q);
    FirstIsKept(all, i);
  }

  /** A client declaration that is the first of its name is declared in full, cloaked;
      only a native one from Copilot is not. */
  lemma {:induction false} ClientDeclarationsSurvive(ds: seq<Decl>, copilot: bool, i: nat)
    requires i < |ds| && !(copilot && Native(ds[i].name)) && forall j :: 0 <= j < i ==> ds[j].name != ds[i].name
    ensures ds[i].(name := Cloak(ds[i].name)) in Declared(ds, copilot)
  {
    hide Native, Cloak, CloakedDecls, Decoys, FirstOfEachName;
    var client := CloakedDecls(ds, copilot);
    var all := client + Decoys();
    var k := CloakedDeclAt(ds, i, copilot);
    assert all[k] == client[k];
    forall j | 0 <= j < k ensures all[j].name != all[k].name {
      assert all[j] == client[j];
      assert CloaksTo(ds, i, client[j].name);
      var p :| 0 <= p < i && client[j].name == Cloak(ds[p].name);
      if client[j].name == client[k].name {
        CloakIsInjective(ds[p].name, ds[i].name);
      }
    }
    CloakIsNeverEmpty(ds[i].name);
    FirstIsKept(all, k);
  }

  lemma {:induction false} CloakIsNeverEmpty(name: string)
    ensures Cloak(name) != ""
  {
    assert |name + SUFFIX| > 0;
    assert forall i :: 0 <= i < |NATIVE| ==> NATIVE[i] != "";
  }

  lemma {:induction false} SuffixIsThere(name: string)
    ensures Native(Cloak(name)) || HasSuffix(Cloak(name), SUFFIX)
  {
    var s := name + SUFFIX;
    assert s[|s| - |SUFFIX|..] == SUFFIX;
  }

  /** A tool of its own called `x_ide` becomes `x`. */
  lemma {:induction false} SuffixedNameIsCut()
    ensures Uncloak("x_ide", map[]) == "x"
  {
    SuffixTrims("x");
    assert "x" + SUFFIX == "x_ide";
  }
}
