/**
 Two ways of writing the DataScienceCluster of a smoke selection: the YAML document applied at install time and
 the JSON merge patch applied to a cluster that already has one.
 */
module DscBuilders {
  import opened Basics
  import opened YamlBlocks
  import opened MergePatch

  const KEYS: seq<string> := [
    "dashboard", "workbenches", "trainingoperator", "trainer", "aipipelines", "kserve", "aigateway", "ray", "kueue",
    "modelregistry", "trustyai", "llamastackoperator", "mlflowoperator", "ogx", "sparkoperator", "codeflare",
    "feastoperator"
  ]

  /** What both builders start from. */
  datatype Selection = Selection(managed: set<string>, maas: bool, raw: bool)

  /* ---------- the component tree both are meant to describe ---------- */

  function State(managed: bool): Entry {
    Entry("managementState", Scalar(if managed then "Managed" else "Removed"))
  }

  function RawDeployment(): seq<Entry> {
    [ Entry("defaultDeploymentMode", Scalar("RawDeployment")),
      Entry("serving", Block([State(false), Entry("name", Scalar("knative-serving"))])) ]
  }

  function Maas(field: string): seq<Entry> {
    [Entry(field, Block([State(true)]))]
  }

  /** The entries of one component. `aigateway` and `kserveAigateway` are the two answers to the question whether
      this operator serves models through the AI gateway. */
  function ComponentOf(sel: Selection, key: string, aigateway: bool, kserveAigateway: bool): seq<Entry> {
    var managed := key in sel.managed;
    if key == "kserve" then
      [Entry(key, Block([State(managed)]
                        + (if managed && sel.raw then RawDeployment() else [])
                        + (if sel.maas && !kserveAigateway then Maas("modelsAsService") else [])))]
    else if key == "aigateway" then
      if !aigateway then []
      else [Entry(key, Block([State(sel.maas || managed)] + (if sel.maas then Maas("modelsAsAService") else [])))]
    else [Entry(key, Block([State(managed)]))]
  }

  function Components(sel: Selection, keys: seq<string>, aigateway: bool, kserveAigateway: bool): seq<Entry> {
    if keys == [] then []
    else
      var n := |keys| - 1;
      Components(sel, keys[..n], aigateway, kserveAigateway) + ComponentOf(sel, keys[n], aigateway, kserveAigateway)
  }

  function DscTree(components: seq<Entry>): seq<Entry> {
    [ Entry("apiVersion", Scalar("datasciencecluster.opendatahub.io/v2")),
      Entry("kind", Scalar("DataScienceCluster")),
      Entry("metadata", Block([Entry("name", Scalar("default-dsc"))])),
      Entry("spec", Block([Entry("components", Block(components))])) ]
  }

  function AsJson(node: Node): Json {
    match node
    case Scalar(text) => Str(text)
    case Block(entries) => Obj(Fields(entries))
  }

  function Fields(entries: seq<Entry>): map<string, Json> {
    if entries == [] then map[]
    else
      var n := |entries| - 1;
      Fields(entries[..n])[entries[n].key := AsJson(entries[n].node)]
  }

  /* ---------- the YAML printer ---------- */

  function StateText(managed: bool): string {
    if managed then "Managed" else "Removed"
  }

  function RawLines(): seq<string> {
    [ "      " + "defaultDeploymentMode" + ": " + "RawDeployment",
      "      " + "serving" + ":",
      "        " + "managementState" + ": " + "Removed",
      "        " + "name" + ": " + "knative-serving" ]
  }

  function MaasLines(field: string): seq<string> {
    ["      " + field + ":", "        " + "managementState" + ": " + "Managed"]
  }

  function KserveBlock(managed: bool, maas: bool, raw: bool, aigateway: bool): seq<string> {
    ["    " + "kserve" + ":"] + ["      " + "managementState" + ": " + StateText(managed)]
    + (if managed && raw then RawLines() else [])
    + (if maas && !aigateway then MaasLines("modelsAsService") else [])
  }

  function AigatewayBlock(managed: bool, maas: bool): seq<string> {
    ["    " + "aigateway" + ":"] + ["      " + "managementState" + ": " + StateText(managed)]
    + (if managed && maas then MaasLines("modelsAsAService") else [])
  }

  lemma {:induction false} SpacesAre()
    ensures Spaces(0) == "" && Spaces(2) == "  " && Spaces(4) == "    " && Spaces(6) == "      "
            && Spaces(8) == "        "
  {
  }

  lemma PrintsState(managed: bool, rest: seq<Entry>, indent: nat)
    ensures Print([State(managed)] + rest, indent)
         == [Spaces(indent) + "managementState" + ": " + StateText(managed)] + Print(rest, indent)
  {
    assert ([State(managed)] + rest)[1..] == rest;
  }

  lemma PrintsMaas(field: string)
    ensures Print(Maas(field), 6) == MaasLines(field)
  {
    SpacesAre();
    PrintsState(true, [], 8);
    assert Maas(field)[1..] == [] && [State(true)] + [] == [State(true)];
  }

  lemma PrintsRaw()
    ensures Print(RawDeployment(), 6) == RawLines()
  {
    SpacesAre();
    var name := Entry("name", Scalar("knative-serving"));
    PrintsState(false, [name], 8);
    assert [name][1..] == [] && RawDeployment()[1..][1..] == [];
  }

  lemma PrintsBlock(key: string, entries: seq<Entry>)
    ensures Print([Entry(key, Block(entries))], 4) == ["    " + key + ":"] + Print(entries, 6)
  {
    SpacesAre();
    var e := Entry(key, Block(entries));
    assert [e][1..] == [];
    assert Print([e], 4) == PrintEntry(e, 4) + [];
  }

  lemma PrintsStateLine(managed: bool, rest: seq<Entry>)
    ensures Print([State(managed)] + rest, 6) ==
            ["      " + "managementState" + ": " + StateText(managed)] + Print(rest, 6)
  {
    SpacesAre();
    PrintsState(managed, rest, 6);
  }

  lemma OptionalBlocksPrint(withRaw: bool, withMaas: bool, field: string)
    ensures Print((if withRaw then RawDeployment() else []) + (if withMaas then Maas(field) else []), 6)
         == (if withRaw then RawLines() else []) + (if withMaas then MaasLines(field) else [])
  {
    PrintAppend(if withRaw then RawDeployment() else [], if withMaas then Maas(field) else [], 6);
    PrintsRaw();
    PrintsMaas(field);
  }

  lemma Regroup(a: seq<string>, b: seq<string>, c: seq<string>, d: seq<string>)
    ensures a + b + c + d == a + (b + (c + d))
  {
  }

  lemma KserveBlockPrints(sel: Selection, aigateway: bool, kserveAigateway: bool)
    ensures KserveBlock("kserve" in sel.managed, sel.maas, sel.raw, kserveAigateway)
         == Print(ComponentOf(sel, "kserve", aigateway, kserveAigateway), 4)
  {
    var managed := "kserve" in sel.managed;
    var raw := if managed && sel.raw then RawDeployment() else [];
    var maas := if sel.maas && !kserveAigateway then Maas("modelsAsService") else [];
    PrintsBlock("kserve", [State(managed)] + raw + maas);
    assert [State(managed)] + raw + maas == [State(managed)] + (raw + maas);
    PrintsStateLine(managed, raw + maas);
    OptionalBlocksPrint(managed && sel.raw, sel.maas && !kserveAigateway, "modelsAsService");
    Regroup(["    " + "kserve" + ":"], ["      " + "managementState" + ": " + StateText(managed)],
            if managed && sel.raw then RawLines() else [],
            if sel.maas && !kserveAigateway then MaasLines("modelsAsService") else []);
  }

  lemma AigatewayBlockPrints(sel: Selection, kserveAigateway: bool)
    ensures AigatewayBlock(sel.maas || "aigateway" in sel.managed, sel.maas)
         == Print(ComponentOf(sel, "aigateway", true, kserveAigateway), 4)
  {
    var managed := sel.maas || "aigateway" in sel.managed;
    var maas := if sel.maas then Maas("modelsAsAService") else [];
    PrintsBlock("aigateway", [State(managed)] + maas);
    PrintsStateLine(managed, maas);
    PrintsMaas("modelsAsAService");
  }

  lemma PlainBlockPrints(key: string, managed: bool)
    ensures ["    " + key + ":", "      " + "managementState" + ": " + StateText(managed)]
         == Print([Entry(key, Block([State(managed)]))], 4)
  {
    PrintsBlock(key, [State(managed)]);
    assert [State(managed)] == [State(managed)] + [];
    PrintsStateLine(managed, []);
  }

  const HEADER: seq<string> := [
    "apiVersion" + ": " + "datasciencecluster.opendatahub.io/v2",
    "kind" + ": " + "DataScienceCluster",
    "metadata" + ":",
    "  " + "name" + ": " + "default-dsc",
    "spec" + ":",
    "  " + "components" + ":"
  ]

  lemma PrintsScalar(key: string, text: string, rest: seq<Entry>)
    ensures Print([Entry(key, Scalar(text))] + rest, 0) == [key + ": " + text] + Print(rest, 0)
  {
    SpacesAre();
    assert "" + key == key;
    assert ([Entry(key, Scalar(text))] + rest)[1..] == rest;
  }

  lemma PrintsTop(key: string, entries: seq<Entry>, rest: seq<Entry>, indent: nat)
    ensures Print([Entry(key, Block(entries))] + rest, indent)
         == [Spaces(indent) + key + ":"] + Print(entries, indent + 2) + Print(rest, indent)
    ensures Spaces(0) + key == key
  {
    assert ([Entry(key, Block(entries))] + rest)[1..] == rest;
  }

  lemma HeaderPrints(components: seq<Entry>)
    ensures HEADER + Print(components, 4) == Print(DscTree(components), 0)
  {
    var tree := DscTree(components);
    var inner := [Entry("components", Block(components))];
    var name := [Entry("name", Scalar("default-dsc"))];
    SpecPrints(inner, components);
    MetadataPrints(name, [tree[3]]);
    assert tree == [tree[0]] + ([tree[1]] + ([tree[2]] + [tree[3]]));
    PrintsScalar("apiVersion", "datasciencecluster.opendatahub.io/v2", [tree[1]] + ([tree[2]] + [tree[3]]));
    PrintsScalar("kind", "DataScienceCluster", [tree[2]] + [tree[3]]);
    assert HEADER == [HEADER[0]] + [HEADER[1]] + [HEADER[2], HEADER[3]] + [HEADER[4], HEADER[5]];
  }

  lemma SpecPrints(inner: seq<Entry>, components: seq<Entry>)
    requires inner == [Entry("components", Block(components))]
    ensures Print([Entry("spec", Block(inner))], 0) == [HEADER[4], HEADER[5]] + Print(components, 4)
  {
    SpacesAre();
    PrintsTop("components", components, [], 2);
    PrintsTop("spec", inner, [], 0);
    assert [Entry("spec", Block(inner))] + [] == [Entry("spec", Block(inner))] && inner + [] == inner;
  }

  lemma MetadataPrints(name: seq<Entry>, rest: seq<Entry>)
    requires name == [Entry("name", Scalar("default-dsc"))]
    ensures Print([Entry("metadata", Block(name))] + rest, 0) == [HEADER[2], HEADER[3]] + Print(rest, 0)
  {
    SpacesAre();
    PrintsTop("metadata", name, rest, 0);
    assert name[1..] == [];
    assert Print(name, 2) == [HEADER[3]];
  }

  /** One round of the printer's loop. */
  method ComponentLines(sel: Selection, key: string, aigateway: bool, kserveAigateway: bool)
    returns (lines: seq<string>)
    ensures lines == Print(ComponentOf(sel, key, aigateway, kserveAigateway), 4)
  {
    if key == "kserve" {
      KserveBlockPrints(sel, aigateway, kserveAigateway);
      return KserveBlock(key in sel.managed, sel.maas, sel.raw, kserveAigateway);
    }
    if key == "aigateway" {
      if !aigateway {
        return [];
      }
      AigatewayBlockPrints(sel, kserveAigateway);
      return AigatewayBlock(sel.maas || key in sel.managed, sel.maas);
    }
    PlainBlockPrints(key, key in sel.managed);
    return ["    " + key + ":", "      " + "managementState" + ": " + StateText(key in sel.managed)];
  }

  lemma OneMoreComponent(sel: Selection, keys: seq<string>, i: nat, aigateway: bool, kserveAigateway: bool)
    requires i < |keys|
    ensures Components(sel, keys[..i + 1], aigateway, kserveAigateway)
         == Components(sel, keys[..i], aigateway, kserveAigateway)
            + ComponentOf(sel, keys[i], aigateway, kserveAigateway)
  {
    assert keys[..i + 1][..i] == keys[..i];
  }

  method AllComponentLines(sel: Selection, keys: seq<string>, aigateway: bool, kserveAigateway: bool)
    returns (lines: seq<string>)
    ensures lines == Print(Components(sel, keys, aigateway, kserveAigateway), 4)
  {
    lines := [];
    for i := 0 to |keys|
      invariant lines == Print(Components(sel, keys[..i], aigateway, kserveAigateway), 4)
    {
      var block := ComponentLines(sel, keys[i], aigateway, kserveAigateway);
      OneMoreComponent(sel, keys, i, aigateway, kserveAigateway);
      PrintAppend(Components(sel, keys[..i], aigateway, kserveAigateway),
                  ComponentOf(sel, keys[i], aigateway, kserveAigateway), 4);
      lines := lines + block;
    }
    assert keys[..|keys|] == keys;
  }

  /* ---------- the question about the AI gateway ---------- */

  /** What `oc explain` says about the field: it fails, or answers whether the CRD has the field. */
  datatype Reply = Failed | Explained(found: bool)

  /** What is remembered after one more reply; a failure is not remembered. */
  function Remembered(memo: Option<bool>, reply: Reply): Option<bool> {
    if memo.Some? then memo else if reply.Failed? then None else Some(reply.found)
  }

  /** The answer for an operator that is, or is not, recent enough. */
  function Uses(memo: Option<bool>, recent: bool): bool {
    memo == Some(true) && recent
  }

  class GatewayProbe {
    var memo: Option<bool>

    constructor ()
      ensures memo == None
    {
      memo := None;
    }

    /** `reply` is what the cluster would say now; it is asked only while nothing is remembered. */
    method SupportsField(reply: Reply) returns (supported: bool)
      modifies this
      ensures memo == Remembered(old(memo), reply) && supported == (memo == Some(true))
    {
      if memo.Some? {
        return memo.value;
      }
      if reply.Failed? {
        return false;
      }
      memo := Some(reply.found);
      return reply.found;
    }

    method UsesGateway(reply: Reply, recent: bool) returns (uses: bool)
      modifies this
      ensures memo == Remembered(old(memo), reply) && uses == Uses(memo, recent)
    {
      uses := SupportsField(reply);
      if uses {
        uses := recent;
      }
    }
  }

  /** The printer. The question about the AI gateway is asked for its own block, and once more for kserve when models
      are served. */
  method BuildDscSmokeYaml(sel: Selection, probe: GatewayProbe, recent: bool, first: Reply, second: Reply)
    returns (text: string)
    modifies probe
    ensures var once := Remembered(old(probe.memo), first);
            var twice := Remembered(once, second);
            && (var parts := Components(sel, KEYS, Uses(once, recent), sel.maas && Uses(twice, recent));
                text == Unlines(Print(DscTree(parts), 0)))
            && DocumentSays(sel, Uses(once, recent), sel.maas && Uses(twice, recent), text)
            && probe.memo == if sel.maas then twice else once
  {
    var aigateway := probe.UsesGateway(first, recent);
    var kserveAigateway := false;
    if sel.maas {
      kserveAigateway := probe.UsesGateway(second, recent);
    }
    var block := AllComponentLines(sel, KEYS, aigateway, kserveAigateway);
    HeaderPrints(Components(sel, KEYS, aigateway, kserveAigateway));
    var lines := HEADER + block;
    text := Unlines(lines);
    PrintedSays(sel, aigateway, kserveAigateway, text);
  }

  /* ---------- the JSON patch ---------- */

  lemma {:induction false} FieldsAppend(a: seq<Entry>, b: seq<Entry>)
    ensures Fields(a + b) == Fields(a) + Fields(b)
  {
    if b == [] {
      assert a + b == a;
    } else {
      var n := |b| - 1;
      assert (a + b)[..|a| + n] == a + b[..n];
      FieldsAppend(a, b[..n]);
    }
  }

  function StateJson(managed: bool): Json {
    Str(StateText(managed))
  }

  lemma PlainFields(key: string, managed: bool)
    ensures Fields([Entry(key, Block([State(managed)]))]) ==
            map[key := Obj(map["managementState" := StateJson(managed)])]
  {
    OneField(key, Block([State(managed)]));
    OneField("managementState", State(managed).node);
  }

  method KservePatch(sel: Selection, aigateway: bool) returns (kserve: map<string, Json>)
    ensures kserve == map["managementState" := StateJson("kserve" in sel.managed)]
                      + (if "kserve" in sel.managed && sel.raw then Fields(RawDeployment()) else map[])
                      + (if sel.maas && !aigateway then Fields(Maas("modelsAsService")) else map[])
  {
    kserve := map["managementState" := StateJson("kserve" in sel.managed)];
    if "kserve" in sel.managed && sel.raw {
      RawFields();
      kserve := kserve + map[
        "defaultDeploymentMode" := Str("RawDeployment"),
        "serving" := Obj(map["managementState" := Str("Removed"), "name" := Str("knative-serving")])];
    }
    if sel.maas && !aigateway {
      MaasFields("modelsAsService");
      kserve := kserve["modelsAsService" := Obj(map["managementState" := Str("Managed")])];
    }
  }

  /** One round of the patch builder's loop: fill in one key of the dictionary. */
  method AddComponent(sel: Selection, key: string, aigateway: bool, patch: map<string, Json>)
    returns (patch': map<string, Json>)
    ensures patch' == patch + Fields(ComponentOf(sel, key, aigateway, aigateway))
  {
    if key == "kserve" {
      var kserve := KservePatch(sel, aigateway);
      KserveFields(sel, aigateway, kserve);
      return patch[key := Obj(kserve)];
    }
    if key == "aigateway" {
      if !aigateway {
        return patch;
      }
      var gateway := map["managementState" := StateJson(sel.maas || key in sel.managed)];
      if sel.maas {
        MaasFields("modelsAsAService");
        gateway := gateway["modelsAsAService" := Obj(map["managementState" := Str("Managed")])];
      }
      AigatewayFields(sel, gateway);
      return patch[key := Obj(gateway)];
    }
    PlainFields(key, key in sel.managed);
    return patch[key := Obj(map["managementState" := StateJson(key in sel.managed)])];
  }

  /** The patch builder, as a loop that fills one dictionary key by key. */
  method BuildComponentsPatch(sel: Selection, keys: seq<string>, aigateway: bool) returns (patch: map<string, Json>)
    ensures patch == Fields(Components(sel, keys, aigateway, aigateway))
    ensures keys == KEYS ==> SaysSelection(sel, aigateway, aigateway, patch)
  {
    patch := map[];
    for i := 0 to |keys|
      invariant patch == Fields(Components(sel, keys[..i], aigateway, aigateway))
    {
      OneMoreComponent(sel, keys, i, aigateway, aigateway);
      FieldsAppend(Components(sel, keys[..i], aigateway, aigateway), ComponentOf(sel, keys[i], aigateway, aigateway));
      patch := AddComponent(sel, keys[i], aigateway, patch);
    }
    assert keys[..|keys|] == keys;
    if keys == KEYS {
      TreeSaysSelection(sel, aigateway, aigateway, patch);
    }
  }

  lemma OneField(key: string, node: Node)
    ensures Fields([Entry(key, node)]) == map[key := AsJson(node)]
  {
    assert [Entry(key, node)][..0] == [];
  }

  lemma MaasFields(field: string)
    ensures Fields(Maas(field)) == map[field := Obj(map["managementState" := Str("Managed")])]
  {
    OneField(field, Block([State(true)]));
    OneField("managementState", State(true).node);
  }

  lemma RawFields()
    ensures Fields(RawDeployment()) == map[
              "defaultDeploymentMode" := Str("RawDeployment"),
              "serving" := Obj(map["managementState" := Str("Removed"), "name" := Str("knative-serving")])]
  {
    var raw := RawDeployment();
    var inner := [State(false), Entry("name", Scalar("knative-serving"))];
    assert raw == [raw[0]] + [raw[1]] && inner == [inner[0]] + [inner[1]];
    FieldsAppend([raw[0]], [raw[1]]);
    FieldsAppend([inner[0]], [inner[1]]);
    OneField(raw[0].key, raw[0].node);
    OneField(raw[1].key, raw[1].node);
    OneField(inner[0].key, inner[0].node);
    OneField(inner[1].key, inner[1].node);
  }

  lemma KserveFields(sel: Selection, aigateway: bool, kserve: map<string, Json>)
    requires kserve == map["managementState" := StateJson("kserve" in sel.managed)]
                       + (if "kserve" in sel.managed && sel.raw then Fields(RawDeployment()) else map[])
                       + (if sel.maas && !aigateway then Fields(Maas("modelsAsService")) else map[])
    ensures Fields(ComponentOf(sel, "kserve", aigateway, aigateway)) == map["kserve" := Obj(kserve)]
  {
    var managed := "kserve" in sel.managed;
    var raw := if managed && sel.raw then RawDeployment() else [];
    var maas := if sel.maas && !aigateway then Maas("modelsAsService") else [];
    OneField("kserve", Block([State(managed)] + raw + maas));
    FieldsAppend([State(managed)] + raw, maas);
    FieldsAppend([State(managed)], raw);
    OneField("managementState", State(managed).node);
  }

  lemma AigatewayFields(sel: Selection, gateway: map<string, Json>)
    requires gateway == map["managementState" := StateJson(sel.maas || "aigateway" in sel.managed)]
                        + (if sel.maas then Fields(Maas("modelsAsAService")) else map[])
    ensures Fields(ComponentOf(sel, "aigateway", true, true)) == map["aigateway" := Obj(gateway)]
  {
    var managed := sel.maas || "aigateway" in sel.managed;
    var maas := if sel.maas then Maas("modelsAsAService") else [];
    OneField("aigateway", Block([State(managed)] + maas));
    FieldsAppend([State(managed)], maas);
    OneField("managementState", State(managed).node);
  }

  /* ---------- agreement ---------- */

  lemma FirstKeysProper()
    ensures ProperKey("dashboard") && ProperKey("workbenches") && ProperKey("trainingoperator") && ProperKey("trainer")
    ensures ProperKey("aipipelines") && ProperKey("kserve")
  {
  }

  lemma MiddleKeysProper()
    ensures ProperKey("aigateway") && ProperKey("ray") && ProperKey("kueue") && ProperKey("modelregistry")
    ensures ProperKey("trustyai") && ProperKey("llamastackoperator")
  {
  }

  lemma LastKeysProper()
    ensures ProperKey("mlflowoperator") && ProperKey("ogx") && ProperKey("sparkoperator") && ProperKey("codeflare")
    ensures ProperKey("feastoperator")
  {
  }

  lemma KeysAreProper()
    ensures forall key :: key in KEYS ==> ProperKey(key)
  {
    FirstKeysProper();
    MiddleKeysProper();
    LastKeysProper();
  }

  lemma FieldNamesProper()
    ensures ProperKey("managementState") && ProperKey("modelsAsService") && ProperKey("modelsAsAService")
    ensures ProperKey("name") && ProperKey("serving") && ProperKey("defaultDeploymentMode")
  {
  }

  lemma StatesAreProper()
    ensures ProperEntry(State(true)) && ProperEntry(State(false))
  {
    FieldNamesProper();
    assert OneLine("Managed") && OneLine("Removed");
  }

  lemma SingletonIsProper(e: Entry)
    requires ProperEntry(e)
    ensures Proper([e])
  {
  }

  lemma AppendIsProper(a: seq<Entry>, b: seq<Entry>)
    requires Proper(a) && Proper(b)
    ensures Proper(a + b)
  {
  }

  lemma BlockIsProper(key: string, entries: seq<Entry>)
    requires ProperKey(key) && Proper(entries)
    ensures Proper([Entry(key, Block(entries))]) && ProperEntry(Entry(key, Block(entries)))
  {
  }

  lemma ScalarIsProper(key: string, text: string)
    requires ProperKey(key) && OneLine(text)
    ensures Proper([Entry(key, Scalar(text))]) && ProperEntry(Entry(key, Scalar(text)))
  {
  }

  lemma MaasIsProper(field: string)
    requires ProperKey(field)
    ensures Proper(Maas(field))
  {
    StatesAreProper();
    SingletonIsProper(State(true));
    BlockIsProper(field, [State(true)]);
  }

  lemma RawIsProper()
    ensures Proper(RawDeployment())
  {
    FieldNamesProper();
    StatesAreProper();
    var mode, state, name := "RawDeployment", State(false), "knative-serving";
    assert OneLine(mode) && OneLine(name);
    ScalarIsProper("name", name);
    SingletonIsProper(state);
    AppendIsProper([state], [Entry("name", Scalar(name))]);
    BlockIsProper("serving", [state] + [Entry("name", Scalar(name))]);
    ScalarIsProper("defaultDeploymentMode", mode);
    AppendIsProper([Entry("defaultDeploymentMode", Scalar(mode))],
                   [Entry("serving", Block([state] + [Entry("name", Scalar(name))]))]);
    assert [State(false), Entry("name", Scalar(name))] == [state] + [Entry("name", Scalar(name))];
    assert RawDeployment() == [Entry("defaultDeploymentMode", Scalar(mode))]
                              + [Entry("serving", Block([state] + [Entry("name", Scalar(name))]))];
  }

  lemma ComponentIsProper(sel: Selection, key: string, aigateway: bool, kserveAigateway: bool)
    requires ProperKey(key)
    ensures Proper(ComponentOf(sel, key, aigateway, kserveAigateway))
  {
    FieldNamesProper();
    StatesAreProper();
    MaasIsProper("modelsAsService");
    MaasIsProper("modelsAsAService");
    RawIsProper();
  }

  lemma {:induction false} ComponentsAreProper(sel: Selection, keys: seq<string>, aigateway: bool,
                                               kserveAigateway: bool)
    requires forall key :: key in keys ==> ProperKey(key)
    ensures Proper(Components(sel, keys, aigateway, kserveAigateway))
  {
    if keys != [] {
      var n := |keys| - 1;
      ComponentsAreProper(sel, keys[..n], aigateway, kserveAigateway);
      ComponentIsProper(sel, keys[n], aigateway, kserveAigateway);
    }
  }

  lemma TopNamesProper()
    ensures ProperKey("apiVersion") && ProperKey("kind") && ProperKey("metadata") && ProperKey("spec")
    ensures ProperKey("components") && ProperKey("name")
  {
  }

  lemma TopTextsProper()
    ensures OneLine("datasciencecluster.opendatahub.io/v2") && OneLine("DataScienceCluster") && OneLine("default-dsc")
  {
  }

  lemma DscTreeIsProper(components: seq<Entry>)
    requires Proper(components)
    ensures Proper(DscTree(components))
  {
    TopNamesProper();
    TopTextsProper();
    var tree := DscTree(components);
    ScalarIsProper("apiVersion", "datasciencecluster.opendatahub.io/v2");
    ScalarIsProper("kind", "DataScienceCluster");
    ScalarIsProper("name", "default-dsc");
    BlockIsProper("metadata", [Entry("name", Scalar("default-dsc"))]);
    BlockIsProper("components", components);
    BlockIsProper("spec", [Entry("components", Block(components))]);
    AppendIsProper([tree[0]], [tree[1]]);
    AppendIsProper([tree[0]] + [tree[1]], [tree[2]]);
    AppendIsProper([tree[0]] + [tree[1]] + [tree[2]], [tree[3]]);
    assert tree == [tree[0]] + [tree[1]] + [tree[2]] + [tree[3]];
  }

  /** Reading the printed document gives the component tree, and that tree is the patch. */
  lemma BuildersAgree(sel: Selection, aigateway: bool, text: string, patch: map<string, Json>)
    requires text == Unlines(Print(DscTree(Components(sel, KEYS, aigateway, aigateway)), 0))
    requires patch == Fields(Components(sel, KEYS, aigateway, aigateway))
    ensures Parse(SplitLines(text)).Some?
    ensures Lookup(Obj(Fields(Parse(SplitLines(text)).value)), ["spec", "components"]) == Some(Obj(patch))
  {
    var components := Components(sel, KEYS, aigateway, aigateway);
    KeysAreProper();
    ComponentsAreProper(sel, KEYS, aigateway, aigateway);
    DscTreeIsProper(components);
    RoundTrip(DscTree(components));
    SpecOfTree(components);
  }

  lemma SpecOfTree(components: seq<Entry>)
    ensures Lookup(Obj(Fields(DscTree(components))), ["spec", "components"]) == Some(Obj(Fields(components)))
  {
    var tree, inner := DscTree(components), [Entry("components", Block(components))];
    assert tree == tree[..3] + [tree[3]];
    FieldsAppend(tree[..3], [tree[3]]);
    OneField("spec", Block(inner));
    OneField("components", Block(components));
    var path := ["spec", "components"];
    assert path[1..] == ["components"] && ["components"][1..] == [];
    var doc := Obj(Fields(tree));
    assert doc.fields["spec"] == Obj(map["components" := Obj(Fields(components))]);
    assert Lookup(doc, path) == Lookup(doc.fields["spec"], ["components"]);
    assert Lookup(doc.fields["spec"], ["components"]) == Lookup(Obj(Fields(components)), []);
  }

  lemma {:induction false} TreesAreNullFree(entries: seq<Entry>)
    ensures NullFree(Obj(Fields(entries)))
  {
    if entries != [] {
      var n := |entries| - 1;
      TreesAreNullFree(entries[..n]);
      if entries[n].node.Block? {
        TreesAreNullFree(entries[n].node.entries);
      }
    }
  }

  function PatchDocument(patch: map<string, Json>): Json {
    Obj(map["spec" := Obj(map["components" := Obj(patch)])])
  }

  lemma PathIntoPatch(patch: map<string, Json>, path: seq<string>)
    ensures Lookup(PatchDocument(patch), ["spec", "components"] + path) == Lookup(Obj(patch), path)
  {
    var full := ["spec", "components"] + path;
    assert full[1..] == ["components"] + path && full[1..][1..] == path;
  }

  /** Patching any DataScienceCluster gives it every state the YAML names, keeps every field the patch does not
      run through, and a second patch changes nothing. */
  lemma PatchedDscAgreesWithYaml(sel: Selection, aigateway: bool, dsc: Json, yaml: map<string, Json>)
    requires yaml == Fields(Components(sel, KEYS, aigateway, aigateway))
    ensures var patched := Merge(dsc, PatchDocument(yaml));
            && Merge(patched, PatchDocument(yaml)) == patched
            && (forall path, text :: Lookup(Obj(yaml), path) == Some(Str(text)) ==>
                  Lookup(patched, ["spec", "components"] + path) == Some(Str(text)))
            && (forall path :: !Touches(PatchDocument(yaml), path) ==> Lookup(patched, path) == Lookup(dsc, path))
  {
    var patch := PatchDocument(yaml);
    TreesAreNullFree(Components(sel, KEYS, aigateway, aigateway));
    assert NullFree(Obj(map["components" := Obj(yaml)]));
    assert NullFree(patch);
    MergeTwice(dsc, patch);
    forall path, text | Lookup(Obj(yaml), path) == Some(Str(text))
      ensures Lookup(Merge(dsc, patch), ["spec", "components"] + path) == Some(Str(text))
    {
      PathIntoPatch(yaml, path);
      LeavesArrive(dsc, patch, ["spec", "components"] + path, text);
    }
    forall path | !Touches(patch, path) ensures Lookup(Merge(dsc, patch), path) == Lookup(dsc, path) {
      OtherFieldsStay(dsc, patch, path);
    }
  }

  /* ---------- the gateway question asked twice ---------- */

  lemma {:induction false} FieldOfComponent(sel: Selection, keys: seq<string>, key: string, aigateway: bool,
                                            kserveAigateway: bool)
    ensures var all := Fields(Components(sel, keys, aigateway, kserveAigateway));
            var own := Fields(ComponentOf(sel, key, aigateway, kserveAigateway));
            if key in keys && key in own then key in all && all[key] == own[key] else key !in all
  {
    if keys != [] {
      var n := |keys| - 1;
      FieldOfComponent(sel, keys[..n], key, aigateway, kserveAigateway);
      LastComponent(sel, keys, aigateway, kserveAigateway);
      OwnKeyOnly(sel, keys[n], aigateway, kserveAigateway);
      LastFieldWins(Fields(Components(sel, keys[..n], aigateway, kserveAigateway)),
                    Fields(ComponentOf(sel, keys[n], aigateway, kserveAigateway)), keys[n], key);
      assert key in keys <==> key in keys[..n] || key == keys[n];
    }
  }

  lemma LastComponent(sel: Selection, keys: seq<string>, aigateway: bool, kserveAigateway: bool)
    requires keys != []
    ensures var n := |keys| - 1;
      Fields(Components(sel, keys, aigateway, kserveAigateway))
        == Fields(Components(sel, keys[..n], aigateway, kserveAigateway))
           + Fields(ComponentOf(sel, keys[n], aigateway, kserveAigateway))
  {
    var n := |keys| - 1;
    FieldsAppend(Components(sel, keys[..n], aigateway, kserveAigateway),
                 ComponentOf(sel, keys[n], aigateway, kserveAigateway));
  }

  lemma LastFieldWins(others: map<string, Json>, own: map<string, Json>, ownKey: string, key: string)
    requires forall other :: other in own ==> other == ownKey
    ensures key != ownKey ==>
              && (key in others + own <==> key in others)
              && (key in others ==> (others + own)[key] == others[key])
    ensures key in own ==> key in others + own && (others + own)[key] == own[key]
    ensures key !in own ==> (key in others + own <==> key in others)
  {
  }

  lemma OwnKeyOnly(sel: Selection, key: string, aigateway: bool, kserveAigateway: bool)
    ensures forall other :: other in Fields(ComponentOf(sel, key, aigateway, kserveAigateway)) ==> other == key
  {
    var own := ComponentOf(sel, key, aigateway, kserveAigateway);
    if own != [] {
      OneField(key, own[0].node);
    }
  }

  predicate MaasOn(yaml: map<string, Json>, component: string, field: string) {
    Lookup(Obj(yaml), [component, field, "managementState"]) == Some(Str("Managed"))
  }

  lemma KserveMaas(sel: Selection, keys: seq<string>, aigateway: bool, kserveAigateway: bool)
    requires "kserve" in keys
    ensures MaasOn(Fields(Components(sel, keys, aigateway, kserveAigateway)), "kserve", "modelsAsService")
        <==> sel.maas && !kserveAigateway
  {
    FieldOfComponent(sel, keys, "kserve", aigateway, kserveAigateway);
    var kserve := map["managementState" := StateJson("kserve" in sel.managed)]
                  + (if "kserve" in sel.managed && sel.raw then Fields(RawDeployment()) else map[])
                  + (if sel.maas && !kserveAigateway then Fields(Maas("modelsAsService")) else map[]);
    KserveFields(sel, kserveAigateway, kserve);
    assert ComponentOf(sel, "kserve", aigateway, kserveAigateway)
        == ComponentOf(sel, "kserve", kserveAigateway, kserveAigateway);
    RawFields();
    MaasFields("modelsAsService");
    LookupState(Fields(Components(sel, keys, aigateway, kserveAigateway)), "kserve", kserve, "modelsAsService");
  }

  lemma LookupState(yaml: map<string, Json>, component: string, fields: map<string, Json>, field: string)
    requires component in yaml && yaml[component] == Obj(fields)
    ensures field !in fields ==> !MaasOn(yaml, component, field)
    ensures field in fields && fields[field] == Obj(map["managementState" := Str("Managed")]) ==>
              MaasOn(yaml, component, field)
  {
    var path := [component, field, "managementState"];
    assert path[1..] == [field, "managementState"] && path[1..][1..] == ["managementState"]
        && path[1..][1..][1..] == [];
    assert Lookup(Obj(yaml), path) == Lookup(Obj(fields), path[1..]);
    if field in fields {
      assert Lookup(Obj(fields), path[1..]) == Lookup(fields[field], ["managementState"]);
    }
  }

  lemma AigatewayMaas(sel: Selection, keys: seq<string>, aigateway: bool, kserveAigateway: bool)
    requires "aigateway" in keys
    ensures MaasOn(Fields(Components(sel, keys, aigateway, kserveAigateway)), "aigateway", "modelsAsAService")
        <==> sel.maas && aigateway
  {
    FieldOfComponent(sel, keys, "aigateway", aigateway, kserveAigateway);
    var yaml := Fields(Components(sel, keys, aigateway, kserveAigateway));
    if aigateway {
      var gateway := map["managementState" := StateJson(sel.maas || "aigateway" in sel.managed)]
                     + (if sel.maas then Fields(Maas("modelsAsAService")) else map[]);
      AigatewayFields(sel, gateway);
      MaasFields("modelsAsAService");
      assert ComponentOf(sel, "aigateway", true, kserveAigateway) == ComponentOf(sel, "aigateway", true, true);
      LookupState(yaml, "aigateway", gateway, "modelsAsAService");
    } else {
      assert "aigateway" !in yaml;
    }
  }

  lemma KeysListBothPlaces()
    ensures "kserve" in KEYS && "aigateway" in KEYS
  {
    assert KEYS[5] == "kserve" && KEYS[6] == "aigateway";
  }

  /** Models as a service is switched on in exactly one of its two places if and only if both questions about the
      gateway were answered alike. */
  lemma MaasPlacedOnceIffAnswersAgree(sel: Selection, aigateway: bool, kserveAigateway: bool)
    requires sel.maas
    ensures var yaml := Fields(Components(sel, KEYS, aigateway, kserveAigateway));
            && (MaasOn(yaml, "kserve", "modelsAsService") != MaasOn(yaml, "aigateway", "modelsAsAService")
                <==> aigateway == kserveAigateway)
            && (MaasOn(yaml, "kserve", "modelsAsService") && MaasOn(yaml, "aigateway", "modelsAsAService")
                <==> aigateway && !kserveAigateway)
  {
    KeysListBothPlaces();
    KserveMaas(sel, KEYS, aigateway, kserveAigateway);
    AigatewayMaas(sel, KEYS, aigateway, kserveAigateway);
  }

  /** For one operator version the two answers differ exactly if the first probe failed with nothing remembered and
      the second one found the field: first no, then yes. */
  lemma AnswersDifferIff(memo: Option<bool>, first: Reply, second: Reply, recent: bool)
    ensures var once := Remembered(memo, first);
            var twice := Remembered(once, second);
            && (Uses(once, recent) != Uses(twice, recent)
                <==> recent && memo == None && first == Failed && second == Explained(true))
            && (Uses(once, recent) ==> Uses(twice, recent))
  {
  }

  /** So the document switches models as a service on in neither place exactly then, and otherwise in one. */
  lemma MaasLostIff(sel: Selection, memo: Option<bool>, first: Reply, second: Reply, recent: bool)
    requires sel.maas
    ensures var once := Remembered(memo, first);
            var yaml := Fields(Components(sel, KEYS, Uses(once, recent), Uses(Remembered(once, second), recent)));
            var atKserve := MaasOn(yaml, "kserve", "modelsAsService");
            var atGateway := MaasOn(yaml, "aigateway", "modelsAsAService");
            && !(atKserve && atGateway)
            && (!atKserve && !atGateway <==> recent && memo == None && first == Failed && second == Explained(true))
  {
    var once := Remembered(memo, first);
    AnswersDifferIff(memo, first, second, recent);
    MaasPlacedOnceIffAnswersAgree(sel, Uses(once, recent), Uses(Remembered(once, second), recent));
  }

  /* ---------- what document and patch say, path by path ---------- */

  function StateName(on: bool): Json {
    Str(if on then "Managed" else "Removed")
  }

  /** A component of which nothing but the state is said. */
  ghost predicate SaysOnly(components: map<string, Json>, key: string, on: bool) {
    key in components && components[key] == Obj(map["managementState" := StateName(on)])
  }

  /** kserve: the state, the raw deployment only where it is managed so, models as a service only without the
      gateway. */
  ghost predicate SaysKserve(components: map<string, Json>, on: bool, raw: bool, maas: bool) {
    var doc := Obj(components);
    && Lookup(doc, ["kserve", "managementState"]) == Some(StateName(on))
    && Lookup(doc, ["kserve", "defaultDeploymentMode"]) == (if raw then Some(Str("RawDeployment")) else None)
    && Lookup(doc, ["kserve", "serving", "managementState"]) == (if raw then Some(StateName(false)) else None)
    && Lookup(doc, ["kserve", "serving", "name"]) == (if raw then Some(Str("knative-serving")) else None)
    && Lookup(doc, ["kserve", "modelsAsService"]) ==
         (if maas then Some(Obj(map["managementState" := StateName(true)])) else None)
  }

  ghost predicate SaysAigateway(components: map<string, Json>, on: bool, maas: bool) {
    var doc := Obj(components);
    && Lookup(doc, ["aigateway", "managementState"]) == Some(StateName(on))
    && Lookup(doc, ["aigateway", "modelsAsAService"]) ==
         (if maas then Some(Obj(map["managementState" := StateName(true)])) else None)
  }

  /** Exactly the listed components, aigateway only where it is used, each in the state that the selection asks for. */
  ghost predicate SaysSelection(sel: Selection, aigateway: bool, kserveAigateway: bool, components: map<string, Json>) {
    && (forall key :: key in components <==> key in KEYS && (key == "aigateway" ==> aigateway))
    && (forall key :: key in KEYS && key != "kserve" && key != "aigateway" ==>
          SaysOnly(components, key, key in sel.managed))
    && SaysKserve(components, "kserve" in sel.managed, "kserve" in sel.managed && sel.raw, sel.maas && !kserveAigateway)
    && (aigateway ==> SaysAigateway(components, sel.maas || "aigateway" in sel.managed, sel.maas))
  }

  lemma LookupTwo(components: map<string, Json>, key: string, fields: map<string, Json>, field: string)
    requires key in components && components[key] == Obj(fields)
    ensures Lookup(Obj(components), [key, field]) == if field in fields then Some(fields[field]) else None
  {
    assert [key, field][1..] == [field] && [field][1..] == [];
    assert Lookup(Obj(components), [key, field]) == Lookup(Obj(fields), [field]);
    if field in fields {
      assert Lookup(Obj(fields), [field]) == Lookup(fields[field], []);
    }
  }

  lemma LookupThree(
    components: map<string, Json>, key: string, fields: map<string, Json>, field: string, last: string)
    requires key in components && components[key] == Obj(fields)
    ensures Lookup(Obj(components), [key, field, last]) ==
              if field in fields then Lookup(fields[field], [last]) else None
  {
    assert [key, field, last][1..] == [field, last] && [field, last][1..] == [last];
    assert Lookup(Obj(components), [key, field, last]) == Lookup(Obj(fields), [field, last]);
  }

  lemma KserveIs(sel: Selection, aigateway: bool, kserveAigateway: bool, components: map<string, Json>)
    returns (kserve: map<string, Json>)
    requires components == Fields(Components(sel, KEYS, aigateway, kserveAigateway))
    ensures "kserve" in components && components["kserve"] == Obj(kserve)
    ensures kserve == map["managementState" := StateJson("kserve" in sel.managed)]
                      + (if "kserve" in sel.managed && sel.raw then Fields(RawDeployment()) else map[])
                      + (if sel.maas && !kserveAigateway then Fields(Maas("modelsAsService")) else map[])
  {
    KeysListBothPlaces();
    FieldOfComponent(sel, KEYS, "kserve", aigateway, kserveAigateway);
    kserve := map["managementState" := StateJson("kserve" in sel.managed)]
              + (if "kserve" in sel.managed && sel.raw then Fields(RawDeployment()) else map[])
              + (if sel.maas && !kserveAigateway then Fields(Maas("modelsAsService")) else map[]);
    KserveFields(sel, kserveAigateway, kserve);
    assert ComponentOf(sel, "kserve", aigateway, kserveAigateway)
        == ComponentOf(sel, "kserve", kserveAigateway, kserveAigateway);
  }

  lemma FieldsOfKserve(kserve: map<string, Json>, on: bool, raw: bool, maas: bool)
    requires kserve == map["managementState" := StateJson(on)]
                       + (if raw then Fields(RawDeployment()) else map[])
                       + (if maas then Fields(Maas("modelsAsService")) else map[])
    ensures Found(kserve, "managementState") == Some(StateName(on))
    ensures Found(kserve, "defaultDeploymentMode") == if raw then Some(Str("RawDeployment")) else None
    ensures Found(kserve, "serving") ==
              if raw then Some(Obj(map["managementState" := Str("Removed"), "name" := Str("knative-serving")]))
              else None
    ensures Found(kserve, "modelsAsService") ==
              if maas then Some(Obj(map["managementState" := StateName(true)])) else None
  {
    RawFields();
    MaasFields("modelsAsService");
  }

  lemma ServingSays(kserve: map<string, Json>)
    requires Found(kserve, "serving") ==
               Some(Obj(map["managementState" := Str("Removed"), "name" := Str("knative-serving")]))
    ensures FoundBelow(kserve, "serving", "managementState") == Some(StateName(false))
    ensures FoundBelow(kserve, "serving", "name") == Some(Str("knative-serving"))
  {
    assert ["managementState"][1..] == [] && ["name"][1..] == [];
  }

  lemma KserveSays(sel: Selection, aigateway: bool, kserveAigateway: bool, components: map<string, Json>)
    requires components == Fields(Components(sel, KEYS, aigateway, kserveAigateway))
    ensures SaysKserve(components, "kserve" in sel.managed, "kserve" in sel.managed && sel.raw,
                       sel.maas && !kserveAigateway)
  {
    var on := "kserve" in sel.managed;
    var kserve := KserveIs(sel, aigateway, kserveAigateway, components);
    FieldsOfKserve(kserve, on, on && sel.raw, sel.maas && !kserveAigateway);
    KserveLookups(components, kserve);
    if on && sel.raw {
      ServingSays(kserve);
    }
  }

  lemma KserveLookups(components: map<string, Json>, kserve: map<string, Json>)
    requires "kserve" in components && components["kserve"] == Obj(kserve)
    ensures var doc := Obj(components);
      && Lookup(doc, ["kserve", "managementState"]) == Found(kserve, "managementState")
      && Lookup(doc, ["kserve", "defaultDeploymentMode"]) == Found(kserve, "defaultDeploymentMode")
      && Lookup(doc, ["kserve", "modelsAsService"]) == Found(kserve, "modelsAsService")
      && Lookup(doc, ["kserve", "serving", "managementState"]) == FoundBelow(kserve, "serving", "managementState")
      && Lookup(doc, ["kserve", "serving", "name"]) == FoundBelow(kserve, "serving", "name")
  {
    LookupTwo(components, "kserve", kserve, "managementState");
    LookupTwo(components, "kserve", kserve, "defaultDeploymentMode");
    LookupTwo(components, "kserve", kserve, "modelsAsService");
    LookupThree(components, "kserve", kserve, "serving", "managementState");
    LookupThree(components, "kserve", kserve, "serving", "name");
  }

  function Found(fields: map<string, Json>, field: string): Option<Json> {
    if field in fields then Some(fields[field]) else None
  }

  function FoundBelow(fields: map<string, Json>, field: string, last: string): Option<Json> {
    if field in fields then Lookup(fields[field], [last]) else None
  }

  lemma AigatewaySays(sel: Selection, kserveAigateway: bool, components: map<string, Json>)
    requires components == Fields(Components(sel, KEYS, true, kserveAigateway))
    ensures SaysAigateway(components, sel.maas || "aigateway" in sel.managed, sel.maas)
  {
    KeysListBothPlaces();
    FieldOfComponent(sel, KEYS, "aigateway", true, kserveAigateway);
    var gateway := map["managementState" := StateJson(sel.maas || "aigateway" in sel.managed)]
                   + (if sel.maas then Fields(Maas("modelsAsAService")) else map[]);
    AigatewayFields(sel, gateway);
    MaasFields("modelsAsAService");
    assert ComponentOf(sel, "aigateway", true, kserveAigateway) == ComponentOf(sel, "aigateway", true, true);
    LookupTwo(components, "aigateway", gateway, "managementState");
    LookupTwo(components, "aigateway", gateway, "modelsAsAService");
  }

  lemma PlainSays(sel: Selection, key: string, aigateway: bool, kserveAigateway: bool, components: map<string, Json>)
    requires components == Fields(Components(sel, KEYS, aigateway, kserveAigateway))
    requires key in KEYS && key != "kserve" && key != "aigateway"
    ensures SaysOnly(components, key, key in sel.managed)
  {
    FieldOfComponent(sel, KEYS, key, aigateway, kserveAigateway);
    PlainFields(key, key in sel.managed);
  }

  lemma KeysSaid(sel: Selection, key: string, aigateway: bool, kserveAigateway: bool, components: map<string, Json>)
    requires components == Fields(Components(sel, KEYS, aigateway, kserveAigateway))
    ensures key in components <==> key in KEYS && (key == "aigateway" ==> aigateway)
  {
    FieldOfComponent(sel, KEYS, key, aigateway, kserveAigateway);
    var own := ComponentOf(sel, key, aigateway, kserveAigateway);
    if own != [] {
      OneField(key, own[0].node);
    }
  }

  /** The tree behind both builders says what the selection asks for. */
  lemma TreeSaysSelection(sel: Selection, aigateway: bool, kserveAigateway: bool, components: map<string, Json>)
    requires components == Fields(Components(sel, KEYS, aigateway, kserveAigateway))
    ensures SaysSelection(sel, aigateway, kserveAigateway, components)
  {
    forall key ensures key in components <==> key in KEYS && (key == "aigateway" ==> aigateway) {
      KeysSaid(sel, key, aigateway, kserveAigateway, components);
    }
    forall key | key in KEYS && key != "kserve" && key != "aigateway"
      ensures SaysOnly(components, key, key in sel.managed)
    {
      PlainSays(sel, key, aigateway, kserveAigateway, components);
    }
    KserveSays(sel, aigateway, kserveAigateway, components);
    if aigateway {
      AigatewaySays(sel, kserveAigateway, components);
    }
  }

  /** The document as read back: what it is, and what it says about the components. */
  ghost predicate DocumentSays(sel: Selection, aigateway: bool, kserveAigateway: bool, text: string) {
    var tree := Parse(SplitLines(text));
    && tree.Some?
    && var doc := Obj(Fields(tree.value));
    && Lookup(doc, ["apiVersion"]) == Some(Str("datasciencecluster.opendatahub.io/v2"))
    && Lookup(doc, ["kind"]) == Some(Str("DataScienceCluster"))
    && Lookup(doc, ["metadata", "name"]) == Some(Str("default-dsc"))
    && exists components :: Lookup(doc, ["spec", "components"]) == Some(Obj(components))
                            && SaysSelection(sel, aigateway, kserveAigateway, components)
  }

  lemma PrintedSays(sel: Selection, aigateway: bool, kserveAigateway: bool, text: string)
    requires text == Unlines(Print(DscTree(Components(sel, KEYS, aigateway, kserveAigateway)), 0))
    ensures DocumentSays(sel, aigateway, kserveAigateway, text)
  {
    var components := Components(sel, KEYS, aigateway, kserveAigateway);
    KeysAreProper();
    ComponentsAreProper(sel, KEYS, aigateway, kserveAigateway);
    DscTreeIsProper(components);
    RoundTrip(DscTree(components));
    HeaderOfTree(components);
    SpecOfTree(components);
    TreeSaysSelection(sel, aigateway, kserveAigateway, Fields(components));
  }

  lemma HeaderOfTree(components: seq<Entry>)
    ensures var doc := Obj(Fields(DscTree(components)));
      && Lookup(doc, ["apiVersion"]) == Some(Str("datasciencecluster.opendatahub.io/v2"))
      && Lookup(doc, ["kind"]) == Some(Str("DataScienceCluster"))
      && Lookup(doc, ["metadata", "name"]) == Some(Str("default-dsc"))
  {
    var tree, name := DscTree(components), [Entry("name", Scalar("default-dsc"))];
    var fields := Fields(tree);
    TopFields(tree, components);
    OneField("name", Scalar("default-dsc"));
    LookupTop(fields, "apiVersion");
    LookupTop(fields, "kind");
    LookupTwo(fields, "metadata", Fields(name), "name");
  }

  lemma LookupTop(fields: map<string, Json>, key: string)
    requires key in fields
    ensures Lookup(Obj(fields), [key]) == Some(fields[key])
  {
    assert [key][1..] == [];
    assert Lookup(Obj(fields), [key]) == Lookup(fields[key], []);
  }

  lemma TopFields(tree: seq<Entry>, components: seq<Entry>)
    requires tree == DscTree(components)
    ensures "apiVersion" in Fields(tree) && Fields(tree)["apiVersion"] == AsJson(tree[0].node)
    ensures "kind" in Fields(tree) && Fields(tree)["kind"] == AsJson(tree[1].node)
    ensures "metadata" in Fields(tree) && Fields(tree)["metadata"] == AsJson(tree[2].node)
  {
    assert tree == [tree[0]] + [tree[1]] + [tree[2]] + [tree[3]];
    FieldsAppend([tree[0]] + [tree[1]] + [tree[2]], [tree[3]]);
    FieldsAppend([tree[0]] + [tree[1]], [tree[2]]);
    FieldsAppend([tree[0]], [tree[1]]);
    OneField(tree[0].key, tree[0].node);
    OneField(tree[1].key, tree[1].node);
    OneField(tree[2].key, tree[2].node);
    OneField(tree[3].key, tree[3].node);
  }

  /** On, as far as the selection goes: wanted, or for the gateway where models are served. */
  predicate IsOn(sel: Selection, key: string) {
    key in sel.managed || (key == "aigateway" && sel.maas)
  }

  lemma StateSaid(sel: Selection, aigateway: bool, kserveAigateway: bool, components: map<string, Json>, key: string)
    requires SaysSelection(sel, aigateway, kserveAigateway, components) && key in components
    ensures Lookup(Obj(components), [key, "managementState"]) == Some(StateName(IsOn(sel, key)))
  {
    if key != "kserve" && key != "aigateway" {
      LookupTwo(components, key, map["managementState" := StateName(key in sel.managed)], "managementState");
    }
  }

  /** After the patch every listed component of any DataScienceCluster is in the state the selection asks for. */
  lemma PatchedDscSaysSelection(sel: Selection, aigateway: bool, dsc: Json, patch: map<string, Json>, key: string)
    requires patch == Fields(Components(sel, KEYS, aigateway, aigateway))
    requires key in KEYS && (key == "aigateway" ==> aigateway)
    ensures Lookup(Merge(dsc, PatchDocument(patch)), ["spec", "components", key, "managementState"]) ==
              Some(StateName(IsOn(sel, key)))
  {
    TreeSaysSelection(sel, aigateway, aigateway, patch);
    StateSaid(sel, aigateway, aigateway, patch, key);
    PatchedDscAgreesWithYaml(sel, aigateway, dsc, patch);
    var path := [key, "managementState"];
    assert ["spec", "components"] + path == ["spec", "components", key, "managementState"];
  }
}
