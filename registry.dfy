/** The agent's tool registry (backend/app/agent/registry.py): a dict built by
    the comprehension `{t.name: t for t in tools}` and only read afterwards.
    A Python dict remembers the order in which its keys were first inserted;
    when a key is inserted again it keeps that place and takes the new value. */
module Registry {
  import opened Wrappers
  import opened Json

  /** A tool as the registry sees it: its name, description and input schema.
      Its `run` coroutine is not part of the registry's logic. */
  datatype Tool = Tool(name: string, description: string, inputSchema: Json)

  /** One entry of `specs()`. */
  datatype ToolSpec = ToolSpec(name: string, description: string, inputSchema: Json)

  /** The dict `_tools`: its keys in insertion order, and its contents. */
  datatype ToolRegistry = ToolRegistry(order: seq<string>, tools: map<string, Tool>)

  predicate Distinct(xs: seq<string>) {
    forall i, j :: 0 <= i < j < |xs| ==> xs[i] != xs[j]
  }

  /** The keys are listed once each, and every tool is filed under its name. */
  predicate Valid(reg: ToolRegistry) {
    && Distinct(reg.order)
    && (forall n :: n in reg.order ==> n in reg.tools)
    && (forall n :: n in reg.tools ==> n in reg.order)
    && (forall n :: n in reg.tools ==> reg.tools[n].name == n)
  }

  /** `d[t.name] = t`. */
  function Insert(reg: ToolRegistry, t: Tool): ToolRegistry {
    if t.name in reg.tools then reg.(tools := reg.tools[t.name := t])
    else ToolRegistry(reg.order + [t.name], reg.tools[t.name := t])
  }

  /** `__init__`: the comprehension over the tool list, inserting left to right. */
  function BuildRegistry(tools: seq<Tool>): (reg: ToolRegistry)
    ensures Valid(reg)
  {
    if |tools| == 0 then ToolRegistry([], map[])
    else Insert(BuildRegistry(tools[..|tools| - 1]), tools[|tools| - 1])
  }

  /** `get(name)`. */
  function Get(reg: ToolRegistry, name: string): Option<Tool> {
    if name in reg.tools then Some(reg.tools[name]) else None
  }

  /** `list()`: the values in key order. */
  function List(reg: ToolRegistry): (r: seq<Tool>)
    requires Valid(reg)
    ensures |r| == |reg.order|
    ensures forall i :: 0 <= i < |r| ==> r[i].name == reg.order[i] && Get(reg, reg.order[i]) == Some(r[i])
  {
    seq(|reg.order|, i requires 0 <= i < |reg.order| => reg.tools[reg.order[i]])
  }

  function SpecOf(t: Tool): ToolSpec {
    ToolSpec(t.name, t.description, t.inputSchema)
  }

  /** `specs()`: one name/description/schema entry per listed tool, in the same order. */
  function Specs(reg: ToolRegistry): (r: seq<ToolSpec>)
    requires Valid(reg)
    ensures |r| == |List(reg)|
    ensures forall i :: 0 <= i < |r| ==>
      var t := List(reg)[i];
      r[i].name == t.name && r[i].description == t.description && r[i].inputSchema == t.inputSchema
  {
    var tools := List(reg);
    seq(|tools|, i requires 0 <= i < |tools| => SpecOf(tools[i]))
  }

  /** The last tool of the list carrying `name`, if any. */
  function LastNamed(tools: seq<Tool>, name: string): Option<Tool> {
    if |tools| == 0 then None
    else if tools[|tools| - 1].name == name then Some(tools[|tools| - 1])
    else LastNamed(tools[..|tools| - 1], name)
  }

  /** `get(name)` finds the last tool registered under `name`: when two tools
      share a name, the later one wins. */
  lemma {:induction false} GetFindsLast(tools: seq<Tool>, name: string)
    ensures Get(BuildRegistry(tools), name) == LastNamed(tools, name)
  {
    if |tools| > 0 {
      GetFindsLast(tools[..|tools| - 1], name);
    }
  }

  function Names(tools: seq<Tool>): (r: seq<string>)
    ensures |r| == |tools| && forall i :: 0 <= i < |tools| ==> r[i] == tools[i].name
  {
    seq(|tools|, i requires 0 <= i < |tools| => tools[i].name)
  }

  /** With distinct names, the last tool carrying a name is the only one. */
  lemma {:induction false} LastNamedDistinct(tools: seq<Tool>, i: int)
    requires Distinct(Names(tools)) && 0 <= i < |tools|
    ensures LastNamed(tools, tools[i].name) == Some(tools[i])
  {
    var n := |tools| - 1;
    if i < n {
      assert Names(tools)[i] != Names(tools)[n];
      assert Names(tools[..n]) == Names(tools)[..n];
      LastNamedDistinct(tools[..n], i);
    }
  }

  /** With distinct names, the keys are the names in list order. */
  lemma {:induction false} DistinctNamesOrder(tools: seq<Tool>)
    requires Distinct(Names(tools))
    ensures BuildRegistry(tools).order == Names(tools)
  {
    if |tools| > 0 {
      var n := |tools| - 1;
      var init := tools[..n];
      assert Names(init) == Names(tools)[..n];
      DistinctNamesOrder(init);
      var prev := BuildRegistry(init);
      assert tools[n].name !in prev.order by {
        forall i | 0 <= i < n
          ensures prev.order[i] != tools[n].name
        {
          assert Names(tools)[i] != Names(tools)[n];
        }
      }
      assert Names(tools) == Names(init) + [tools[n].name];
    }
  }

  /** With distinct names, `list()` gives back the tool list itself. */
  lemma DistinctNamesListAll(tools: seq<Tool>)
    requires Distinct(Names(tools))
    ensures BuildRegistry(tools).order == Names(tools)
    ensures List(BuildRegistry(tools)) == tools
  {
    var reg := BuildRegistry(tools);
    DistinctNamesOrder(tools);
    forall i | 0 <= i < |tools|
      ensures List(reg)[i] == tools[i]
    {
      GetFindsLast(tools, tools[i].name);
      LastNamedDistinct(tools, i);
    }
  }

  /** Re-registering a name keeps the key's first position but takes the new tool. */
  lemma LaterWins(first: Tool, second: Tool, other: Tool)
    requires first.name == second.name != other.name
    ensures var reg := BuildRegistry([first, other, second]);
      && reg.order == [first.name, other.name]
      && List(reg) == [second, other]
  {
    var reg0 := ToolRegistry([], map[]);
    assert [first][..0] == [];
    var reg1 := Insert(reg0, first);
    assert BuildRegistry([first]) == reg1;
    assert [first, other][..1] == [first];
    var reg2 := Insert(reg1, other);
    assert BuildRegistry([first, other]) == reg2;
    assert reg2.order == [first.name, other.name];
    assert [first, other, second][..2] == [first, other];
  }

  const LATEX_TOOL := "generate_latex"
  const MANIM_TOOL := "generate_manim_animation"
  const SCREENSHOT_TOOL := "generate_video_screenshot"
  const TEMPLATE_TOOL := "get_latex_template"
  const SCRAPER_TOOL := "scrape_web_page"

  const LATEX_DESCRIPTION := "Generate or modify LaTeX given a natural language instruction."
  const MANIM_DESCRIPTION := "Create a Manim animation video from a structured description (returns video path)."
  const SCREENSHOT_DESCRIPTION :=
    "Extract frame from middle of MP4 video as screenshot and return both image path and video URL for LaTeX embedding."
  const TEMPLATE_DESCRIPTION :=
    "Retrieve a LaTeX template example from the local database. Use this to get context for generating similar LaTeX documents."
  const SCRAPER_DESCRIPTION :=
    "Scrape and summarize content from a web page URL. Use this when the user provides a web link."

  /** The five tools of `__init__`, in registration order; their input schemas
      (one of which is generated from a Pydantic model) are parameters. */
  function DefaultTools(schemas: seq<Json>): seq<Tool>
    requires |schemas| == 5
  {
    [ Tool(LATEX_TOOL, LATEX_DESCRIPTION, schemas[0]),
      Tool(MANIM_TOOL, MANIM_DESCRIPTION, schemas[1]),
      Tool(SCREENSHOT_TOOL, SCREENSHOT_DESCRIPTION, schemas[2]),
      Tool(TEMPLATE_TOOL, TEMPLATE_DESCRIPTION, schemas[3]),
      Tool(SCRAPER_TOOL, SCRAPER_DESCRIPTION, schemas[4]) ]
  }

  /** `ToolRegistry()`. */
  function DefaultRegistry(schemas: seq<Json>): ToolRegistry
    requires |schemas| == 5
  {
    BuildRegistry(DefaultTools(schemas))
  }

  /** The five default names are distinct, so every default tool is listed, in
      registration order, and each is found under its own name. */
  lemma DefaultRegistryHasAll(schemas: seq<Json>)
    requires |schemas| == 5
    ensures var reg := DefaultRegistry(schemas);
      && List(reg) == DefaultTools(schemas)
      && reg.order == [LATEX_TOOL, MANIM_TOOL, SCREENSHOT_TOOL, TEMPLATE_TOOL, SCRAPER_TOOL]
      && forall i :: 0 <= i < 5 ==> Get(reg, DefaultTools(schemas)[i].name) == Some(DefaultTools(schemas)[i])
  {
    var tools := DefaultTools(schemas);
    var names := Names(tools);
    assert names == [LATEX_TOOL, MANIM_TOOL, SCREENSHOT_TOOL, TEMPLATE_TOOL, SCRAPER_TOOL];
    assert |LATEX_TOOL| == 14 && |MANIM_TOOL| == 24 && |SCREENSHOT_TOOL| == 25;
    assert |TEMPLATE_TOOL| == 18 && |SCRAPER_TOOL| == 15;
    assert Distinct(names);
    DistinctNamesListAll(tools);
  }
}
