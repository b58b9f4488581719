/**
 * Reading and writing potentials as YAML documents: `from_dict` turns a
 * document of the form {class, units, parameters} into a potential object,
 * `to_dict` is its inverse, and `read` / `write` dispatch between paths,
 * streams and literal text around a YAML codec.
 *
 * The unit library (`u.Unit`, `str(unit)`), the potential classes reachable
 * by name, the YAML codec and the file system are parameters of the model.
 */
module PotentialIO {
  import opened Wrappers
  import opened Yaml
  import opened Coercion

  /** A potential object, as far as the codec observes it. */
  datatype Instance<U> = Instance(className: string, units: seq<U>, parameters: Entries)

  /** A potential class called as `Potential(units=..., **params)`; None when it raises. */
  type Constructor<!U> = (seq<U>, map<string, real>) -> Option<Instance<U>>

  /** The classes `getattr(potential, name)` reaches, by name. */
  type Registry<!U> = map<string, Constructor<U>>

  /** The exceptions the codec lets through, one per cause. */
  datatype Error =
    | MissingClass                            // KeyError about 'class'
    | MissingUnits                            // KeyError about 'units'
    | UnitsNotIterable(units: Value)          // TypeError iterating d['units']
    | InvalidUnit(unit: Value)                // the unit library rejects an element
    | ParametersNotMapping(params: Value)     // AttributeError: no .items()
    | InvalidParameter(key: string, v: Value) // float(v) raises
    | ClassNameNotString(cls: Value)          // getattr with a non-str name
    | UnknownClass(name: string)              // AttributeError from getattr
    | DuplicateKeyword(key: string)           // TypeError: a parameter repeats the keyword `units`
    | ConstructorFailed(name: string)         // the class constructor raises
    | NotAMapping(doc: Value)                 // indexing a loaded non-dict document
    | YamlError                               // the YAML loader raises
    | IOError                                 // opening or writing the destination fails

  datatype Result<T> = Ok(value: T) | Err(error: Error)

  // ---------------------------------------------------------------- units

  /** The elements Python's `for unit in v` yields: list items, the characters of a str, the keys of a dict. */
  function UnitItems(v: Value): (r: Option<seq<Value>>)
    ensures v.VList? ==> r == Some(v.items)
    ensures r.Some? ==> v.VList? || v.VStr? || v.VMap?
  {
    match v
    case VList(xs) => Some(xs)
    case VStr(s) => Some(seq(|s|, i requires 0 <= i < |s| => VStr([s[i]])))
    case VMap(es) => Some(seq(|es|, i requires 0 <= i < |es| => VStr(es[i].0)))
    case _ => None
  }

  /** `[u.Unit(unit) for unit in items]`: every element parsed, in order; the first rejected element is reported. */
  function ParseUnits<U>(items: seq<Value>, parse: Value -> Option<U>): (r: Result<seq<U>>)
    ensures r.Ok? ==> |r.value| == |items|
    ensures r.Ok? ==> forall i :: 0 <= i < |items| ==> parse(items[i]) == Some(r.value[i])
    ensures r.Err? ==> exists i :: 0 <= i < |items| && r.error == InvalidUnit(items[i]) && parse(items[i]).None?
                        && forall j :: 0 <= j < i ==> parse(items[j]).Some?
  {
    if items == [] then Ok([])
    else match parse(items[0])
      case None => Err(InvalidUnit(items[0]))
      case Some(u) =>
        match ParseUnits(items[1..], parse)
        case Err(e) => Err(e)
        case Ok(us) => Ok([u] + us)
  }

  /** `[str(unit) for unit in units]` as YAML strings. */
  function UnitStrings<U>(units: seq<U>, show: U -> string): seq<Value> {
    seq(|units|, i requires 0 <= i < |units| => VStr(show(units[i])))
  }

  // ----------------------------------------------------------- parameters

  /** The parameter mapping `from_dict` works on: `d['parameters']`, or a fresh empty dict when absent. */
  function ParametersOf(d: Entries): (r: Result<Entries>)
    ensures !HasKey(d, "parameters") ==> r == Ok([])
    ensures HasKey(d, "parameters") && r.Ok? ==> Lookup(d, "parameters") == Some(VMap(r.value))
    ensures r.Err? ==> HasKey(d, "parameters") && !Lookup(d, "parameters").value.VMap?
  {
    match Lookup(d, "parameters")
    case None => Ok([])
    case Some(VMap(es)) => Ok(es)
    case Some(v) => Err(ParametersNotMapping(v))
  }

  /** Position of the first parameter whose value `float` rejects, or |ps| when there is none. */
  function FirstBad(ps: Entries): (n: nat)
    ensures n <= |ps|
    ensures forall j :: 0 <= j < n ==> ToFloat(ps[j].1).Some?
    ensures n < |ps| ==> ToFloat(ps[n].1).None?
  {
    if ps == [] then 0
    else if ToFloat(ps[0].1).None? then 0
    else 1 + FirstBad(ps[1..])
  }

  /** The mapping after the loop `params[k] = float(v)` has run over its first n entries. */
  function CoerceUpTo(ps: Entries, n: nat): (r: Entries)
    requires n <= |ps|
    requires forall j :: 0 <= j < n ==> ToFloat(ps[j].1).Some?
    ensures |r| == |ps|
  {
    seq(|ps|, j requires 0 <= j < |ps| =>
      if j < n then (ps[j].0, VFloat(ToFloat(ps[j].1).value)) else ps[j])
  }

  /** The state the coercion loop leaves behind: everything before the first failure coerced. */
  function Coerced(ps: Entries): Entries {
    CoerceUpTo(ps, FirstBad(ps))
  }

  predicate AllFloats(ps: Entries) {
    forall j :: 0 <= j < |ps| ==> ps[j].1.VFloat?
  }

  /** `**params`: the keyword arguments a dict of floats spreads into (the first entry of a key wins). */
  function Kwargs(ps: Entries): (m: map<string, real>)
    requires AllFloats(ps)
  {
    if ps == [] then map[]
    else Kwargs(ps[1..])[ps[0].0 := ps[0].1.x]
  }

  // --------------------------------------------------------------- decode

  /**
   * `getattr(potential, class_name)(units=units, **kwargs)`: the name is looked
   * up first; a keyword argument `units` in `kwargs` then clashes with the
   * explicit `units=` before the class is entered; only then does the class run.
   */
  function Construct<U>(cls: Value, units: seq<U>, kwargs: map<string, real>, registry: Registry<U>): (r: Result<Instance<U>>)
    ensures !cls.VStr? ==> r == Err(ClassNameNotString(cls))
    ensures cls.VStr? && cls.s !in registry ==> r == Err(UnknownClass(cls.s))
    ensures cls.VStr? && cls.s in registry && "units" in kwargs ==> r == Err(DuplicateKeyword("units"))
    ensures r.Ok? <==> cls.VStr? && cls.s in registry && "units" !in kwargs && registry[cls.s](units, kwargs).Some?
    ensures r.Ok? ==> registry[cls.s](units, kwargs) == Some(r.value)
  {
    match cls
    case VStr(name) =>
      if name !in registry then Err(UnknownClass(name))
      else if "units" in kwargs then Err(DuplicateKeyword("units"))
      else (
        match registry[name](units, kwargs)
        case None => Err(ConstructorFailed(name))
        case Some(p) => Ok(p))
    case _ => Err(ClassNameNotString(cls))
  }

  /** What `from_dict(d)` returns or raises, step by step in the order the source checks. */
  function Decode<U>(d: Entries, registry: Registry<U>, parse: Value -> Option<U>): Result<Instance<U>> {
    match Lookup(d, "class")
    case None => Err(MissingClass)
    case Some(cls) =>
      match Lookup(d, "units")
      case None => Err(MissingUnits)
      case Some(uv) =>
        match UnitItems(uv)
        case None => Err(UnitsNotIterable(uv))
        case Some(items) =>
          match ParseUnits(items, parse)
          case Err(e) => Err(e)
          case Ok(units) =>
            match ParametersOf(d)
            case Err(e) => Err(e)
            case Ok(ps) =>
              var bad := FirstBad(ps);
              if bad < |ps| then Err(InvalidParameter(ps[bad].0, ps[bad].1))
              else Construct(cls, units, Kwargs(Coerced(ps)), registry)
  }

  /** Whether `from_dict(d)` gets as far as the coercion loop. */
  predicate ReachesCoercion<U>(d: Entries, parse: Value -> Option<U>) {
    && HasKey(d, "class")
    && HasKey(d, "units")
    && UnitItems(Lookup(d, "units").value).Some?
    && ParseUnits(UnitItems(Lookup(d, "units").value).value, parse).Ok?
  }

  /**
   * The caller's document after `from_dict(d)`: the loop overwrites the values
   * of `d['parameters']` in place, up to the first value `float` rejects.
   */
  function DocumentAfter<U>(d: Entries, parse: Value -> Option<U>): Entries {
    if ReachesCoercion(d, parse) then
      match Find(d, "parameters")
      case None => d
      case Some(at) =>
        match d[at].1
        case VMap(ps) => d[at := ("parameters", VMap(Coerced(ps)))]
        case _ => d
    else d
  }

  /** A Python dict holding a loaded document; `from_dict` mutates it. */
  class Document {
    var entries: Entries

    constructor(es: Entries)
      ensures entries == es
    {
      entries := es;
    }

    /**
     * The loop `for k, v in params.items(): params[k] = float(v)`. When `at`
     * is the position of 'parameters', `params` is that value and every
     * overwrite shows in this dict; otherwise `params` is a fresh dict. The
     * loop stops at the first value `float` rejects.
     */
    method CoerceParameters(at: Option<nat>, ps: Entries) returns (stop: nat, params: Entries)
      requires at.Some? ==> at.value < |entries| && entries[at.value] == ("parameters", VMap(ps))
      modifies this
      ensures stop == FirstBad(ps) && params == Coerced(ps)
      ensures at.Some? ==> entries == old(entries)[at.value := ("parameters", VMap(params))]
      ensures at.None? ==> entries == old(entries)
    {
      params := ps;
      stop := 0;
      while stop < |params|
        invariant stop <= FirstBad(ps)
        invariant params == CoerceUpTo(ps, stop)
        invariant at.Some? ==> entries == old(entries)[at.value := ("parameters", VMap(params))]
        invariant at.None? ==> entries == old(entries)
      {
        var x := ToFloat(params[stop].1);
        if x.None? {
          assert params == Coerced(ps);
          return;
        }
        params := params[stop := (params[stop].0, VFloat(x.value))];
        if at.Some? {
          entries := entries[at.value := ("parameters", VMap(params))];
        }
        stop := stop + 1;
      }
      assert params == Coerced(ps);
    }
  }

  /** `from_dict(d)`. */
  method FromDict<U>(d: Document, registry: Registry<U>, parse: Value -> Option<U>) returns (r: Result<Instance<U>>)
    modifies d
    ensures r == Decode(old(d.entries), registry, parse)
    ensures d.entries == DocumentAfter(old(d.entries), parse)
  {
    var cls := Lookup(d.entries, "class");
    if cls.None? {
      return Err(MissingClass);
    }
    var uv := Lookup(d.entries, "units");
    if uv.None? {
      return Err(MissingUnits);
    }
    var items := UnitItems(uv.value);
    if items.None? {
      return Err(UnitsNotIterable(uv.value));
    }
    var units := ParseUnits(items.value, parse);
    if units.Err? {
      return Err(units.error);
    }

    var params: Entries;
    var at := Find(d.entries, "parameters");
    if at.Some? {
      match d.entries[at.value].1 {
        case VMap(es) => params := es;
        case _ => return Err(ParametersNotMapping(d.entries[at.value].1));
      }
    } else {
      params := [];
    }

    var stop;
    stop, params := d.CoerceParameters(at, params);
    if stop < |params| {
      return Err(InvalidParameter(params[stop].0, params[stop].1));
    }
    r := Construct(cls.value, units.value, Kwargs(params), registry);
  }

  // --------------------------------------------------------------- encode

  /** `to_dict(potential)`: class name, unit strings in order, and the parameters only when there are some. */
  function ToDict<U>(p: Instance<U>, show: U -> string): (d: Entries)
    ensures Lookup(d, "class") == Some(VStr(p.className))
    ensures Lookup(d, "units") == Some(VList(UnitStrings(p.units, show)))
    ensures HasKey(d, "parameters") <==> |p.parameters| > 0
    ensures HasKey(d, "parameters") ==> Lookup(d, "parameters") == Some(VMap(p.parameters))
    ensures forall i :: 0 <= i < |d| ==> d[i].0 == "class" || d[i].0 == "units" || d[i].0 == "parameters"
  {
    var d := [("class", VStr(p.className)), ("units", VList(UnitStrings(p.units, show)))]
      + (if |p.parameters| > 0 then [("parameters", VMap(p.parameters))] else []);
    assert d[1..][0] == d[1];
    assert |p.parameters| > 0 ==> d[1..][1..][0] == d[2];
    d
  }

  // ------------------------------------------------------ decode properties

  /** Without a `class` key decoding fails on `class`, whatever else the document holds. */
  lemma MissingClassReported<U>(d: Entries, registry: Registry<U>, parse: Value -> Option<U>)
    requires !HasKey(d, "class")
    ensures Decode(d, registry, parse) == Err(MissingClass)
    ensures DocumentAfter(d, parse) == d
  {
  }

  /** With a `class` key but no `units` key decoding fails on `units`. */
  lemma MissingUnitsReported<U>(d: Entries, registry: Registry<U>, parse: Value -> Option<U>)
    requires HasKey(d, "class") && !HasKey(d, "units")
    ensures Decode(d, registry, parse) == Err(MissingUnits)
    ensures DocumentAfter(d, parse) == d
  {
  }

  lemma {:induction false} KwargsMeaning(ps: Entries)
    requires AllFloats(ps)
    ensures forall k :: k in Kwargs(ps) <==> HasKey(ps, k)
    ensures forall k :: k in Kwargs(ps) ==> Lookup(ps, k) == Some(VFloat(Kwargs(ps)[k]))
  {
    if ps != [] {
      KwargsMeaning(ps[1..]);
      forall k ensures HasKey(ps, k) <==> k == ps[0].0 || HasKey(ps[1..], k) {
        if HasKey(ps, k) && k != ps[0].0 {
          var i :| 0 <= i < |ps| && ps[i].0 == k;
          assert ps[1..][i - 1] == ps[i];
        }
        if HasKey(ps[1..], k) {
          var i :| 0 <= i < |ps[1..]| && ps[1..][i].0 == k;
          assert ps[i + 1] == ps[1..][i];
        }
      }
    }
  }

  /**
   * After a coercion loop that met no failure every parameter holds the float
   * of its original value, under the same key at the same position, and the
   * keyword arguments handed to the class are exactly those keys and floats.
   */
  lemma CoercionMeaning(ps: Entries)
    requires FirstBad(ps) == |ps|
    ensures |Coerced(ps)| == |ps| && AllFloats(Coerced(ps))
    ensures forall j :: 0 <= j < |ps| ==>
      Coerced(ps)[j].0 == ps[j].0 && Some(Coerced(ps)[j].1.x) == ToFloat(ps[j].1)
    ensures forall k :: k in Kwargs(Coerced(ps)) <==> HasKey(ps, k)
    ensures forall k :: HasKey(ps, k) ==> ToFloat(Lookup(ps, k).value) == Some(Kwargs(Coerced(ps))[k])
  {
    var c := Coerced(ps);
    CoercedEntries(ps);
    KwargsMeaning(c);
    forall k ensures HasKey(c, k) <==> HasKey(ps, k) {
      if HasKey(c, k) {
        var i :| 0 <= i < |c| && c[i].0 == k;
        assert ps[i].0 == k;
      }
      if HasKey(ps, k) {
        var i :| 0 <= i < |ps| && ps[i].0 == k;
        assert c[i].0 == k;
      }
    }
    forall k | HasKey(ps, k) ensures ToFloat(Lookup(ps, k).value) == Some(Kwargs(c)[k]) {
      FindSameKeys(ps, c, k);
    }
  }

  /** After a loop without failure, entry j keeps its key and holds the float of its old value. */
  lemma CoercedEntries(ps: Entries)
    requires FirstBad(ps) == |ps|
    ensures |Coerced(ps)| == |ps| && AllFloats(Coerced(ps))
    ensures forall j :: 0 <= j < |ps| ==>
      Coerced(ps)[j].0 == ps[j].0 && Some(Coerced(ps)[j].1.x) == ToFloat(ps[j].1)
  {
    var c := Coerced(ps);
    assert c == CoerceUpTo(ps, |ps|);
    forall j | 0 <= j < |ps| ensures c[j] == (ps[j].0, VFloat(ToFloat(ps[j].1).value)) {
    }
  }

  /** Two mappings with the same keys at the same positions find every key at the same place. */
  lemma {:induction false} FindSameKeys(a: Entries, b: Entries, k: string)
    requires |a| == |b| && forall j :: 0 <= j < |a| ==> a[j].0 == b[j].0
    ensures Find(a, k) == Find(b, k)
  {
    if a != [] {
      FindSameKeys(a[1..], b[1..], k);
    }
  }

  /**
   * The loop overwrites the caller's `parameters` mapping in place: the
   * document keeps its keys in their places, and `d['parameters']` now maps
   * the same keys, in the same order, to the float of each original value.
   */
  lemma CoercionInPlace<U>(d: Entries, parse: Value -> Option<U>, ps: Entries)
    requires ReachesCoercion(d, parse)
    requires Lookup(d, "parameters") == Some(VMap(ps))
    requires FirstBad(ps) == |ps|
    ensures |DocumentAfter(d, parse)| == |d|
    ensures forall j :: 0 <= j < |d| ==> DocumentAfter(d, parse)[j].0 == d[j].0
    ensures Lookup(DocumentAfter(d, parse), "parameters") == Some(VMap(Coerced(ps)))
    ensures forall j :: 0 <= j < |ps| ==>
      Coerced(ps)[j].0 == ps[j].0 && Coerced(ps)[j].1 == VFloat(ToFloat(ps[j].1).value)
  {
    var at := DocumentAfterCoerced(d, parse, ps);
    FindAfterValueUpdate(d, at, VMap(Coerced(ps)), "parameters");
  }

  /** With all of `parameters` coerced, the document after the call differs only at that key's position. */
  lemma DocumentAfterCoerced<U>(d: Entries, parse: Value -> Option<U>, ps: Entries) returns (at: nat)
    requires ReachesCoercion(d, parse)
    requires Lookup(d, "parameters") == Some(VMap(ps))
    ensures Find(d, "parameters") == Some(at) && at < |d| && d[at].0 == "parameters"
    ensures DocumentAfter(d, parse) == d[at := ("parameters", VMap(Coerced(ps)))]
  {
    at := Find(d, "parameters").value;
    assert d[at].1 == VMap(ps);
  }

  /** A missing `parameters` key means no keyword arguments, and the document is left alone. */
  lemma MissingParametersMeansNone<U>(d: Entries, registry: Registry<U>, parse: Value -> Option<U>)
    requires ReachesCoercion(d, parse) && !HasKey(d, "parameters")
    ensures Decode(d, registry, parse) ==
      Construct(Lookup(d, "class").value,
                ParseUnits(UnitItems(Lookup(d, "units").value).value, parse).value,
                map[], registry)
    ensures DocumentAfter(d, parse) == d
  {
    assert Coerced([]) == [];
  }

  /** A document with an empty `parameters` mapping decodes exactly as one without the key. */
  lemma EmptyParametersLikeAbsent<U>(d: Entries, registry: Registry<U>, parse: Value -> Option<U>)
    requires !HasKey(d, "parameters")
    ensures Decode(d + [("parameters", VMap([]))], registry, parse) == Decode(d, registry, parse)
  {
    var e := d + [("parameters", VMap([]))];
    LookupAppendOther(d, "class", ("parameters", VMap([])));
    LookupAppendOther(d, "units", ("parameters", VMap([])));
    LookupAppendNew(d, "parameters", VMap([]));
    assert ParametersOf(e) == Ok([]);
    assert ParametersOf(d) == Ok([]);
  }

  /** Unit strings printed by `str` parse back, in order, to the units they came from. */
  lemma {:induction false} ParseUnitsOfShown<U>(units: seq<U>, show: U -> string, parse: Value -> Option<U>)
    requires forall u :: parse(VStr(show(u))) == Some(u)
    ensures ParseUnits(UnitStrings(units, show), parse) == Ok(units)
  {
    if units != [] {
      assert UnitStrings(units, show)[1..] == UnitStrings(units[1..], show);
      ParseUnitsOfShown(units[1..], show, parse);
      assert [units[0]] + units[1..] == units;
    }
  }

  /**
   * `from_dict(to_dict(p))` rebuilds p: the class is found by the name
   * `to_dict` wrote, the unit strings parse back in order, and the parameters
   * (absent when empty) come back as the same keys with float values. The
   * hypotheses are the codec's assumptions: units print and parse inversely,
   * the class is reachable by its own name, p's parameter values are
   * numbers, and the class rebuilds p from its units and parameters. A
   * parameter named `units` is the one exception: it clashes with the
   * `units=` keyword, so the call fails instead.
   */
  lemma RoundTrip<U>(p: Instance<U>, registry: Registry<U>, parse: Value -> Option<U>, show: U -> string)
    requires forall u :: parse(VStr(show(u))) == Some(u)
    requires p.className in registry
    requires forall j :: 0 <= j < |p.parameters| ==> ToFloat(p.parameters[j].1).Some?
    requires registry[p.className](p.units, Kwargs(Coerced(p.parameters))) == Some(p)
    ensures Decode(ToDict(p, show), registry, parse) ==
      if HasKey(p.parameters, "units") then Err(DuplicateKeyword("units")) else Ok(p)
  {
    var d := ToDict(p, show);
    ParseUnitsOfShown(p.units, show, parse);
    assert UnitItems(VList(UnitStrings(p.units, show))) == Some(UnitStrings(p.units, show));
    if |p.parameters| == 0 {
      assert p.parameters == [];
      assert ParametersOf(d) == Ok([]);
      assert Kwargs(Coerced([])) == map[];
    } else {
      assert ParametersOf(d) == Ok(p.parameters);
    }
    assert FirstBad(p.parameters) == |p.parameters|;
    CoercionMeaning(p.parameters);
  }

  // ------------------------------------------------------------ read, write

  /** What `read(f)` is given: a str (a path, or else the document text itself) or a readable stream. */
  datatype Source = Named(name: string) | Readable(content: string)

  /** `yaml.load(text)`. */
  function LoadText(text: string, load: string -> Option<Value>): Result<Value> {
    match load(text)
    case None => Err(YamlError)
    case Some(v) => Ok(v)
  }

  /**
   * The document `read(f)` hands to `from_dict`: the loaded contents of the
   * file `f` names when opening and loading it succeed, and otherwise, after
   * any failure in that attempt, `f` itself loaded as YAML text.
   */
  function LoadSource(src: Source, files: map<string, string>, load: string -> Option<Value>): Result<Value> {
    match src
    case Readable(content) => LoadText(content, load)
    case Named(s) =>
      if s in files && load(files[s]).Some? then Ok(load(files[s]).value)
      else LoadText(s, load)
  }

  /** What `read(f)` returns or raises. */
  function ReadResult<U>(src: Source, files: map<string, string>, load: string -> Option<Value>,
                         registry: Registry<U>, parse: Value -> Option<U>): Result<Instance<U>> {
    match LoadSource(src, files, load)
    case Err(e) => Err(e)
    case Ok(VMap(es)) => Decode(es, registry, parse)
    case Ok(v) => Err(NotAMapping(v))
  }

  /** The files `open` can read, and the paths `open(f, 'w')` fails on. */
  class FileSystem {
    var files: map<string, string>
    var unwritable: set<string>

    constructor(files: map<string, string>, unwritable: set<string>)
      ensures this.files == files && this.unwritable == unwritable
    {
      this.files := files;
      this.unwritable := unwritable;
    }
  }

  /** A file-like object with a `write` method. */
  class Stream {
    var text: string
    var closed: bool

    constructor()
      ensures text == [] && !closed
    {
      text := [];
      closed := false;
    }
  }

  /** What `write(potential, f)` is given: an object with `write`, or a path. */
  datatype Destination = ToStream(stream: Stream) | ToPath(path: string) {
    function Objects(): set<object> {
      if ToStream? then {stream} else {}
    }
  }

  /** `read(f)`. */
  method Read<U>(src: Source, fs: FileSystem, load: string -> Option<Value>,
                 registry: Registry<U>, parse: Value -> Option<U>) returns (r: Result<Instance<U>>)
    ensures r == ReadResult(src, fs.files, load, registry, parse)
  {
    var doc: Result<Value>;
    match src {
      case Readable(content) =>
        doc := LoadText(content, load);
      case Named(s) =>
        var fromFile := if s in fs.files then load(fs.files[s]) else None;
        if fromFile.Some? {
          doc := Ok(fromFile.value);
        } else {
          doc := LoadText(s, load);
        }
    }
    match doc {
      case Err(e) =>
        r := Err(e);
      case Ok(v) =>
        if v.VMap? {
          var d := new Document(v.entries);
          r := FromDict(d, registry, parse);
        } else {
          r := Err(NotAMapping(v));
        }
    }
  }

  /** `write(potential, f)`: a stream is written to and left open; a path is (re)written whole. */
  method Write<U>(p: Instance<U>, dest: Destination, fs: FileSystem, show: U -> string,
                  dump: Entries -> string) returns (r: Result<()>)
    modifies fs, dest.Objects()
    ensures r.Err? ==> r.error == IOError
    ensures fs.unwritable == old(fs.unwritable)
    ensures dest.ToStream? ==> (r.Ok? <==> !old(dest.stream.closed))
    ensures dest.ToStream? ==> dest.stream.closed == old(dest.stream.closed)
    ensures dest.ToStream? ==> dest.stream.text ==
                               if r.Ok? then old(dest.stream.text) + dump(ToDict(p, show)) else old(dest.stream.text)
    ensures dest.ToStream? ==> fs.files == old(fs.files)
    ensures dest.ToPath? ==> (r.Ok? <==> dest.path !in old(fs.unwritable))
    ensures dest.ToPath? ==> fs.files ==
                             if r.Ok? then old(fs.files)[dest.path := dump(ToDict(p, show))] else old(fs.files)
  {
    var d := ToDict(p, show);
    match dest {
      case ToStream(s) =>
        if s.closed {
          return Err(IOError);
        }
        s.text := s.text + dump(d);
        r := Ok(());
      case ToPath(path) =>
        if path in fs.unwritable {
          return Err(IOError);
        }
        fs.files := fs.files[path := dump(d)];
        r := Ok(());
    }
  }

  /** `read` dispatch: a readable file wins; any failure to open or load it falls back to the text itself. */
  lemma ReadDispatch<U>(s: string, files: map<string, string>, load: string -> Option<Value>,
                        registry: Registry<U>, parse: Value -> Option<U>)
    ensures s in files && load(files[s]).Some? ==>
      ReadResult(Named(s), files, load, registry, parse) == ReadResult(Readable(files[s]), files, load, registry, parse)
    ensures s !in files || load(files[s]).None? ==>
      ReadResult(Named(s), files, load, registry, parse) == ReadResult(Readable(s), files, load, registry, parse)
  {
  }

  /**
   * Writing a potential to a path and reading that path back rebuilds it,
   * given a YAML codec whose loader inverts its dumper on this document and
   * the round-trip assumptions of `RoundTrip`.
   */
  lemma WriteThenRead<U>(p: Instance<U>, files: map<string, string>, path: string,
                         show: U -> string, dump: Entries -> string, load: string -> Option<Value>,
                         registry: Registry<U>, parse: Value -> Option<U>)
    requires load(dump(ToDict(p, show))) == Some(VMap(ToDict(p, show)))
    requires forall u :: parse(VStr(show(u))) == Some(u)
    requires p.className in registry
    requires forall j :: 0 <= j < |p.parameters| ==> ToFloat(p.parameters[j].1).Some?
    requires registry[p.className](p.units, Kwargs(Coerced(p.parameters))) == Some(p)
    ensures ReadResult(Named(path), files[path := dump(ToDict(p, show))], load, registry, parse) ==
      if HasKey(p.parameters, "units") then Err(DuplicateKeyword("units")) else Ok(p)
  {
    RoundTrip(p, registry, parse, show);
  }
}
