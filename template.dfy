/**
 * template.go: the Handlebars view engine's cache of parsed templates and
 * the choice, at render time, between a page and the layout that wraps it.
 * The template language itself (parsing and executing a template) belongs
 * to the Handlebars library and enters the model as the functions `parse`
 * and `exec`, passed in by the caller.
 */
module Template {
  import opened Wrappers

  /** A parsed template; what it contains is the template library's business. */
  datatype Tpl = Tpl(source: string)

  /** A value in a binding map: a string marked safe (not escaped again), or anything else. */
  datatype Value = SafeString(text: string) | Data(repr: string)

  /** What a template is executed against: a map, a nil map, or a value of another type. */
  datatype Bound = MapBound(entries: map<string, Value>) | NilMapBound | OtherBound(repr: string)

  /** A binding map as the caller holds it: Go maps are references, so writes to it are seen by the caller. */
  class VarMap {
    var entries: map<string, Value>

    constructor ()
      ensures entries == map[]
    {
      entries := map[];
    }
  }

  /** The value handed to ExecuteWriter: a map (possibly nil) or something else. */
  datatype Binding = MapBinding(m: VarMap?) | OtherBinding(repr: string)

  /** The map a binding refers to, if any. */
  function MapOf(b: Binding): set<VarMap>
  {
    if b.MapBinding? && b.m != null then {b.m} else {}
  }

  /** The binding's current contents, as a template sees them. */
  function BoundOf(b: Binding): Bound
    reads MapOf(b)
  {
    match b
    case MapBinding(m) => if m == null then NilMapBound else MapBound(m.entries)
    case OtherBinding(repr) => OtherBound(repr)
  }

  /** The output a render is written to. */
  class Writer {
    var out: string

    constructor ()
      ensures out == ""
    {
      out := "";
    }

    method Write(s: string)
      modifies this
      ensures out == old(out) + s
    {
      out := out + s;
    }
  }

  /** getLayout: the layout given for this render, or the engine's layout when none is given. */
  function GetLayout(layout: string, globalLayout: string): (r: string)
    ensures layout != "" ==> r == layout
    ensures layout == "" ==> r == globalLayout
  {
    if layout == "" && globalLayout != "" then globalLayout else layout
  }

  /** The error ExecuteWriter reports when the template to render is not loaded. */
  function MissingMessage(renderName: string, filename: string): string
  {
    "template with name " + renderName + "[original name = " + filename + "] doesn't exists in the dir"
  }

  /** The error ExecuteWriter reports when a layout is rendered against something that is not a map. */
  function NotMapMessage(repr: string): string
  {
    "Please provide a map[string]interface{} type as the binding instead of the " + repr
  }

  /** The page's output stored under "yield": only a map that exists receives it. */
  function WithYield(b: Bound, page: string): (r: Bound)
    ensures b.MapBound? ==> r == MapBound(b.entries["yield" := SafeString(page)])
    ensures !b.MapBound? ==> r == b
  {
    match b
    case MapBound(e) => MapBound(e["yield" := SafeString(page)])
    case _ => b
  }

  /** The names a load adds: those not yet cached whose contents parse. */
  function Added(c: map<string, Tpl>, tpls: map<string, string>, names: set<string>, parse: string -> Result<Tpl, string>): set<string>
  {
    set n | n in names && n in tpls && n !in c && parse(tpls[n]).Success?
  }

  /**
   * The cache after loading the templates named in `names`: cached names
   * keep their template, new names that parse are added.
   */
  function Insert(c: map<string, Tpl>, tpls: map<string, string>, names: set<string>, parse: string -> Result<Tpl, string>): map<string, Tpl>
  {
    map n | n in c.Keys + Added(c, tpls, names, parse) :: if n in c then c[n] else parse(tpls[n]).value
  }

  /** The cache after a LoadTpls that meets no parse error. */
  function Loaded(c: map<string, Tpl>, tpls: map<string, string>, parse: string -> Result<Tpl, string>): map<string, Tpl>
  {
    Insert(c, tpls, tpls.Keys, parse)
  }

  /** Every template LoadTpls would add parses. */
  predicate AllParse(c: map<string, Tpl>, tpls: map<string, string>, parse: string -> Result<Tpl, string>)
  {
    forall n :: n in tpls && n !in c ==> parse(tpls[n]).Success?
  }

  /** Loading never replaces a cached template, and adds exactly the new names that parse. */
  lemma LoadedKeeps(c: map<string, Tpl>, tpls: map<string, string>, parse: string -> Result<Tpl, string>)
    ensures forall n :: n in c ==> n in Loaded(c, tpls, parse) && Loaded(c, tpls, parse)[n] == c[n]
    ensures forall n :: n in Loaded(c, tpls, parse) && n !in c ==>
      n in tpls && parse(tpls[n]) == Success(Loaded(c, tpls, parse)[n])
    ensures AllParse(c, tpls, parse) ==> Loaded(c, tpls, parse).Keys == c.Keys + tpls.Keys
  {
    if AllParse(c, tpls, parse) {
      assert Added(c, tpls, tpls.Keys, parse) == tpls.Keys - c.Keys;
    }
  }

  /** Loading the same templates a second time changes nothing. */
  lemma LoadedIdempotent(c: map<string, Tpl>, tpls: map<string, string>, parse: string -> Result<Tpl, string>)
    requires AllParse(c, tpls, parse)
    ensures Loaded(Loaded(c, tpls, parse), tpls, parse) == Loaded(c, tpls, parse)
  {
    var c' := Loaded(c, tpls, parse);
    LoadedKeeps(c, tpls, parse);
    assert Added(c', tpls, tpls.Keys, parse) == {};
  }

  /** One more name loaded: the cache gains it if it is new and parses. */
  lemma InsertStep(c: map<string, Tpl>, tpls: map<string, string>, done: set<string>, name: string, parse: string -> Result<Tpl, string>)
    requires name in tpls && name !in done
    requires forall n :: n in Insert(c, tpls, done, parse) && n !in c ==> n in done
    ensures name in c ==> Insert(c, tpls, done + {name}, parse) == Insert(c, tpls, done, parse)
    ensures name !in c && parse(tpls[name]).Success? ==>
      Insert(c, tpls, done + {name}, parse) == Insert(c, tpls, done, parse)[name := parse(tpls[name]).value]
  {
    if name in c {
      assert Added(c, tpls, done + {name}, parse) == Added(c, tpls, done, parse);
    } else if parse(tpls[name]).Success? {
      assert Added(c, tpls, done + {name}, parse) == Added(c, tpls, done, parse) + {name};
    }
  }

  /** The Handlebars view engine: the default layout and the cache of parsed templates. */
  class HandlebarsEngine {
    const directory: string
    const ext: string
    var layout: string
    var cache: map<string, Tpl>

    /** Handlebars: an engine for a directory and extension, with an empty cache and no layout. */
    constructor (directory: string, ext: string)
      ensures this.directory == directory && this.ext == ext
      ensures layout == "" && cache == map[]
    {
      this.directory, this.ext := directory, ext;
      layout, cache := "", map[];
    }

    /** Layout: sets the layout every render uses unless it names its own. */
    method Layout(layoutFile: string)
      modifies this
      ensures layout == layoutFile && cache == old(cache)
    {
      layout := layoutFile;
    }

    /**
     * LoadTpls: parses and caches every named template that is not cached
     * yet, in no particular order, and stops at the first parse error with
     * the templates loaded so far kept.
     */
    method LoadTpls(tpls: map<string, string>, parse: string -> Result<Tpl, string>) returns (err: Option<string>)
      modifies this
      ensures layout == old(layout)
      ensures forall n :: n in old(cache) ==> n in cache && cache[n] == old(cache)[n]
      ensures forall n :: n in cache && n !in old(cache) ==> n in tpls && parse(tpls[n]) == Success(cache[n])
      ensures err.None? <==> AllParse(old(cache), tpls, parse)
      ensures err.None? ==> cache == Loaded(old(cache), tpls, parse)
      ensures err.Some? ==> exists n :: n in tpls && n !in cache && parse(tpls[n]) == Failure(err.value)
    {
      ghost var start := cache;
      ghost var done: set<string> := {};
      var remaining := tpls.Keys;
      while remaining != {}
        invariant layout == old(layout)
        invariant done + remaining == tpls.Keys && done !! remaining
        invariant cache == Insert(start, tpls, done, parse)
        invariant forall n :: n in done && n !in start ==> parse(tpls[n]).Success?
        decreases remaining
      {
        var name :| name in remaining;
        remaining := remaining - {name};
        InsertStep(start, tpls, done, name, parse);
        if name !in cache {
          var r := parse(tpls[name]);
          if r.Failure? {
            assert name !in Insert(start, tpls, done, parse);
            return Some(r.error);
          }
          cache := cache[name := r.value];
        }
        done := done + {name};
      }
      assert done == tpls.Keys;
      return None;
    }

    /** fromCache: the cached template of that name, if any. */
    function FromCache(name: string): (t: Option<Tpl>)
      reads this
      ensures t.Some? <==> name in cache
      ensures t.Some? ==> t.value == cache[name]
    {
      if name in cache then Some(cache[name]) else None
    }

    /** executeTemplateBuf: renders a cached template; a name that is not cached renders as "" without error. */
    function ExecuteTemplateBuf(name: string, b: Bound, exec: (Tpl, Bound) -> Result<string, string>): (r: Result<string, string>)
      reads this
      ensures name !in cache ==> r == Success("")
      ensures name in cache ==> r == exec(cache[name], b)
    {
      match FromCache(name)
      case Some(t) => exec(t, b)
      case None => Success("")
    }

    /**
     * The "render" helper: a partial's output, or a not-found message when
     * executing it fails.  A partial that is not cached renders as "".
     */
    function RenderHelper(name: string, partial: string, b: Bound, exec: (Tpl, Bound) -> Result<string, string>): (s: string)
      reads this
      ensures name !in cache ==> s == ""
      ensures name in cache && exec(cache[name], b).Success? ==> s == exec(cache[name], b).value
      ensures name in cache && exec(cache[name], b).Failure? ==>
        s == "template with name: " + partial + " couldn't not be found."
    {
      match ExecuteTemplateBuf(name, b, exec)
      case Success(contents) => contents
      case Failure(_) => "template with name: " + partial + " couldn't not be found."
    }

    /** The helper RegisterRender adds under `funcName`: partials live under funcName + "s/". */
    function NamedRender(funcName: string, partial: string, b: Bound, exec: (Tpl, Bound) -> Result<string, string>): (s: string)
      reads this
      ensures funcName + "s/" + partial !in cache ==> s == ""
      ensures var n := funcName + "s/" + partial;
        n in cache && exec(cache[n], b).Success? ==> s == exec(cache[n], b).value
      ensures var n := funcName + "s/" + partial;
        n in cache && exec(cache[n], b).Failure? ==>
          s == "template with name: " + partial + " couldn't not be found."
    {
      RenderHelper(funcName + "s/" + partial, partial, b, exec)
    }

    /** The template ExecuteWriter renders: the effective layout, if there is one, else the page. */
    function RenderName(filename: string, layout: string): string
      reads this
    {
      var lay := GetLayout(layout, this.layout);
      if lay != "" then lay else filename
    }

    /**
     * What ExecuteWriter produces for a binding whose contents are `b`: the
     * text written, or the error returned.
     */
    function Outcome(filename: string, layout: string, b: Bound, exec: (Tpl, Bound) -> Result<string, string>): Result<string, string>
      reads this
    {
      var lay := GetLayout(layout, this.layout);
      var target := RenderName(filename, layout);
      if target !in cache then Failure(MissingMessage(target, filename))
      else if lay == "" then exec(cache[target], b)
      else if b.OtherBound? then Failure(NotMapMessage(b.repr))
      else match ExecuteTemplateBuf(filename, b, exec)
        case Failure(e) => Failure(e)
        case Success(page) => exec(cache[target], WithYield(b, page))
    }

    /** The page output ExecuteWriter stores under "yield" in the caller's map, when it gets that far. */
    function Yield(filename: string, layout: string, b: Bound, exec: (Tpl, Bound) -> Result<string, string>): Option<string>
      reads this
    {
      var lay := GetLayout(layout, this.layout);
      if lay == "" || lay !in cache || !b.MapBound? then None
      else match ExecuteTemplateBuf(filename, b, exec)
        case Failure(_) => None
        case Success(page) => Some(page)
    }

    /**
     * ExecuteWriter: renders the page, or the layout with the page's output
     * under "yield", and writes the result; on an error nothing is written.
     */
    method ExecuteWriter(w: Writer, filename: string, layout: string, bind: Binding, exec: (Tpl, Bound) -> Result<string, string>)
      returns (err: Option<string>)
      modifies w, MapOf(bind)
      ensures var r := Outcome(filename, layout, old(BoundOf(bind)), exec);
        && (err.None? <==> r.Success?)
        && (r.Failure? ==> err == Some(r.error) && w.out == old(w.out))
        && (r.Success? ==> w.out == old(w.out) + r.value)
      ensures bind.MapBinding? && bind.m != null ==>
        var y := Yield(filename, layout, old(BoundOf(bind)), exec);
        bind.m.entries == if y.Some? then old(bind.m.entries)["yield" := SafeString(y.value)] else old(bind.m.entries)
    {
      var isLayout := false;
      var lay := GetLayout(layout, this.layout);
      var renderFilename := filename;
      if lay != "" {
        isLayout := true;
        renderFilename := lay;
      }
      var found := FromCache(renderFilename);
      if found.None? {
        return Some(MissingMessage(renderFilename, filename));
      }
      var tmpl := found.value;
      if isLayout {
        if bind.OtherBinding? {
          return Some(NotMapMessage(bind.repr));
        }
        var contents := ExecuteTemplateBuf(filename, BoundOf(bind), exec);
        if contents.Failure? {
          return Some(contents.error);
        }
        var context := bind.m;
        if context == null {
          context := new VarMap();
        }
        context.entries := context.entries["yield" := SafeString(contents.value)];
      }
      var res := exec(tmpl, BoundOf(bind));
      if res.Failure? {
        return Some(res.error);
      }
      w.Write(res.value);
      return None;
    }
  }

  // ---------------------------------------------------------------------
  // What a render produces

  /** Without a layout, the page itself is rendered against the binding as given. */
  lemma PageWithoutLayout(e: HandlebarsEngine, filename: string, layout: string, b: Bound, exec: (Tpl, Bound) -> Result<string, string>)
    requires layout == "" && e.layout == ""
    ensures e.RenderName(filename, layout) == filename
    ensures e.Outcome(filename, layout, b, exec) ==
      if filename in e.cache then exec(e.cache[filename], b) else Failure(MissingMessage(filename, filename))
    ensures e.Yield(filename, layout, b, exec).None?
  {
  }

  /** The layout a render names wins over the engine's; the engine's applies when none is named. */
  lemma LayoutChoice(e: HandlebarsEngine, filename: string, layout: string)
    ensures layout != "" ==> e.RenderName(filename, layout) == layout
    ensures layout == "" && e.layout != "" ==> e.RenderName(filename, layout) == e.layout
  {
  }

  /** A render target that is not loaded is an error naming it; no page is rendered and nothing is yielded. */
  lemma MissingTarget(e: HandlebarsEngine, filename: string, layout: string, b: Bound, exec: (Tpl, Bound) -> Result<string, string>)
    requires e.RenderName(filename, layout) !in e.cache
    ensures e.Outcome(filename, layout, b, exec) == Failure(MissingMessage(e.RenderName(filename, layout), filename))
    ensures e.Yield(filename, layout, b, exec).None?
  {
  }

  /** With a layout, a binding that is not a map is refused before anything is rendered. */
  lemma LayoutNeedsMap(e: HandlebarsEngine, filename: string, layout: string, repr: string, exec: (Tpl, Bound) -> Result<string, string>)
    requires GetLayout(layout, e.layout) != "" && GetLayout(layout, e.layout) in e.cache
    ensures e.Outcome(filename, layout, OtherBound(repr), exec) == Failure(NotMapMessage(repr))
    ensures e.Yield(filename, layout, OtherBound(repr), exec).None?
  {
  }

  /**
   * With a layout and a map binding, the page is rendered first against the
   * map as given, and the layout then sees the page's output under "yield";
   * every other entry is as the caller left it.
   */
  lemma LayoutYieldsPage(e: HandlebarsEngine, filename: string, layout: string, entries: map<string, Value>, page: string,
                         exec: (Tpl, Bound) -> Result<string, string>)
    requires GetLayout(layout, e.layout) != "" && GetLayout(layout, e.layout) in e.cache
    requires e.ExecuteTemplateBuf(filename, MapBound(entries), exec) == Success(page)
    ensures var lay := GetLayout(layout, e.layout);
      var seen := entries["yield" := SafeString(page)];
      && e.Outcome(filename, layout, MapBound(entries), exec) == exec(e.cache[lay], MapBound(seen))
      && seen["yield"] == SafeString(page)
      && (forall k :: k in entries && k != "yield" ==> k in seen && seen[k] == entries[k])
      && e.Yield(filename, layout, MapBound(entries), exec) == Some(page)
  {
  }

  /** A page that is not loaded yields "" to the layout, without error. */
  lemma MissingPageYieldsEmpty(e: HandlebarsEngine, filename: string, layout: string, entries: map<string, Value>,
                               exec: (Tpl, Bound) -> Result<string, string>)
    requires GetLayout(layout, e.layout) != "" && GetLayout(layout, e.layout) in e.cache
    requires filename !in e.cache
    ensures e.Outcome(filename, layout, MapBound(entries), exec) ==
      exec(e.cache[GetLayout(layout, e.layout)], MapBound(entries["yield" := SafeString("")]))
  {
  }

  /**
   * A nil map gets no "yield": the page's output goes into a map of its own
   * that the layout never sees, and the layout is rendered against the nil map.
   */
  lemma NilMapLosesYield(e: HandlebarsEngine, filename: string, layout: string, exec: (Tpl, Bound) -> Result<string, string>)
    requires GetLayout(layout, e.layout) != "" && GetLayout(layout, e.layout) in e.cache
    requires e.ExecuteTemplateBuf(filename, NilMapBound, exec).Success?
    ensures e.Outcome(filename, layout, NilMapBound, exec) == exec(e.cache[GetLayout(layout, e.layout)], NilMapBound)
  {
  }

  /** A failed page render is ExecuteWriter's error, and the layout is not rendered. */
  lemma PageErrorStops(e: HandlebarsEngine, filename: string, layout: string, b: Bound, exec: (Tpl, Bound) -> Result<string, string>)
    requires GetLayout(layout, e.layout) != "" && GetLayout(layout, e.layout) in e.cache && !b.OtherBound?
    requires filename in e.cache && exec(e.cache[filename], b).Failure?
    ensures e.Outcome(filename, layout, b, exec) == Failure(exec(e.cache[filename], b).error)
    ensures e.Yield(filename, layout, b, exec).None?
  {
  }
}
