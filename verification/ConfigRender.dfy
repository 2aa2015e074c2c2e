/** Rendering nested configuration sections into an existing YAML map, and loading them back. */
module ConfigRender {
  import opened Options

  /** A YAML leaf value, after the codec of its field. */
  datatype Scalar = Null | Bool(b: bool) | Number(n: int) | Text(s: string) | Items(items: seq<Scalar>)

  datatype Node = Leaf(value: Scalar) | Mapping(entries: map<string, Node>)

  /** A section as the list of its fields.  `key` is the output key (alias or name), `always` the
      render marker, `isSet` membership in `model_fields_set`; `strict` is extra="forbid" of the
      nested section. */
  datatype Section =
    | End
    | LeafField(key: string, always: bool, isSet: bool, value: Scalar, default: Scalar, rest: Section)
    | NestedField(key: string, always: bool, isSet: bool, strict: bool, body: Section, rest: Section)
  {
    predicate Visible()
      requires !End?
    {
      isSet || always
    }

    function Keys(): set<string> {
      if End? then {} else {key} + rest.Keys()
    }

    ghost predicate WellFormed() {
      End? || (key !in rest.Keys() && rest.WellFormed() && (NestedField? ==> body.WellFormed()))
    }
  }

  // ----- rendering -----

  /** What a section renders to: a function of the section alone. */
  function Render(s: Section): map<string, Node> {
    match s
    case End => map[]
    case LeafField(key, _, _, value, _, rest) =>
      if s.Visible() then Render(rest)[key := Leaf(value)] else Render(rest)
    case NestedField(key, _, _, _, body, rest) =>
      if s.Visible() && Render(body) != map[] then Render(rest)[key := Mapping(Render(body))]
      else Render(rest)
  }

  lemma {:induction false} RenderedKeys(s: Section)
    ensures Render(s).Keys <= s.Keys()
  {
    if !s.End? { RenderedKeys(s.rest); }
  }

  ghost function Restricted(m: map<string, Node>, keys: set<string>): map<string, Node>
    requires keys <= m.Keys
  {
    map k | k in keys :: m[k]
  }

  /** What was written so far together with what the remaining fields render to. */
  ghost function Joined(target: map<string, Node>, written: set<string>, pending: map<string, Node>): map<string, Node>
    requires written <= target.Keys
  {
    Restricted(target, written) + pending
  }

  lemma {:induction false} WriteKey(
    target: map<string, Node>, written: set<string>, pending: map<string, Node>, key: string, node: Node)
    requires written <= target.Keys && key !in written && key !in pending
    ensures written + {key} <= target[key := node].Keys
    ensures Joined(target[key := node], written + {key}, pending) == Joined(target, written, pending[key := node])
  {
    var after, before :=
      Joined(target[key := node], written + {key}, pending), Joined(target, written, pending[key := node]);
    assert after.Keys == before.Keys == written + {key} + pending.Keys;
    forall k | k in after
      ensures after[k] == before[k]
    {
    }
  }

  /** The source's loop: write visible fields into the existing map, then delete every key not
      written.  Whatever the map held before, the result is the section's own rendering. */
  method SectionToMap(section: Section, existing: Option<map<string, Node>>) returns (target: map<string, Node>)
    requires section.WellFormed()
    ensures target == Render(section)
    decreases section
  {
    target := if existing.Some? then existing.value else map[];
    var written: set<string> := {};
    var cursor := section;
    while cursor != End
      invariant cursor == section || cursor < section
      invariant cursor.WellFormed() && written <= target.Keys && written !! cursor.Keys()
      invariant Joined(target, written, Render(cursor)) == Render(section)
      decreases cursor
    {
      var key := cursor.key;
      assert cursor.Keys() == {key} + cursor.rest.Keys();
      RenderedKeys(cursor.rest);
      if cursor.LeafField? && cursor.Visible() {
        WriteKey(target, written, Render(cursor.rest), key, Leaf(cursor.value));
        target := target[key := Leaf(cursor.value)];
        written := written + {key};
      } else if cursor.NestedField? && cursor.Visible() {
        var nestedExisting :=
          if key in target && target[key].Mapping? then Some(target[key].entries) else None;
        var nested := SectionToMap(cursor.body, nestedExisting);
        if nested != map[] {
          WriteKey(target, written, Render(cursor.rest), key, Mapping(nested));
          target := target[key := Mapping(nested)];
          written := written + {key};
        }
      }
      cursor := cursor.rest;
    }
    target := DeleteStale(target, written);
  }

  method DeleteStale(stored: map<string, Node>, written: set<string>) returns (target: map<string, Node>)
    requires written <= stored.Keys
    ensures target == Restricted(stored, written)
  {
    target := stored;
    var stale := target.Keys - written;
    while stale != {}
      invariant written <= target.Keys && stale == target.Keys - written
      invariant forall k | k in target :: k in stored && target[k] == stored[k]
      decreases |stale|
    {
      var key :| key in stale;
      target := target - {key};
      stale := stale - {key};
    }
    assert target.Keys == written;
  }

  // ----- the rendering by paths -----

  function Lookup(m: map<string, Node>, path: seq<string>): Option<Scalar>
    decreases |path|
  {
    if path == [] || path[0] !in m then None
    else
      match m[path[0]]
      case Leaf(value) => if |path| == 1 then Some(value) else None
      case Mapping(entries) => Lookup(entries, path[1..])
  }

  /** The value a path of fields shows: every field on it is set or marked always. */
  function Shown(s: Section, path: seq<string>): Option<Scalar> {
    match s
    case End => None
    case LeafField(key, _, _, value, _, rest) =>
      if path != [] && path[0] == key then (if s.Visible() && |path| == 1 then Some(value) else None)
      else Shown(rest, path)
    case NestedField(key, _, _, _, body, rest) =>
      if path != [] && path[0] == key then (if s.Visible() then Shown(body, path[1..]) else None)
      else Shown(rest, path)
  }

  lemma {:induction false} LookupOther(m: map<string, Node>, key: string, node: Node, path: seq<string>)
    requires path == [] || path[0] != key
    ensures Lookup(m[key := node], path) == Lookup(m, path)
  {
  }

  /** At every depth the rendered map holds exactly the shown values. */
  lemma {:induction false} RenderShowsPaths(s: Section, path: seq<string>)
    requires s.WellFormed()
    ensures Lookup(Render(s), path) == Shown(s, path)
    decreases s
  {
    if !s.End? {
      RenderedKeys(s.rest);
      RenderShowsPaths(s.rest, path);
      if path != [] && path[0] == s.key {
        if s.NestedField? { RenderShowsPaths(s.body, path[1..]); }
      } else {
        var node := if s.LeafField? then Leaf(s.value) else Mapping(Render(s.body));
        LookupOther(Render(s.rest), s.key, node, path);
      }
    }
  }

  lemma {:induction false} ShownPath(s: Section, key: string) returns (path: seq<string>)
    requires s.WellFormed() && key in Render(s)
    ensures path != [] && path[0] == key && Shown(s, path).Some?
    decreases s
  {
    RenderedKeys(s.rest);
    if key != s.key {
      path := ShownPath(s.rest, key);
    } else if s.LeafField? {
      path := [key];
    } else {
      var inner :| inner in Render(s.body);
      var tail := ShownPath(s.body, inner);
      path := [key] + tail;
      assert path[1..] == tail;
    }
  }

  /** Cascade-up: a key, of a nested section too, is present exactly when some path starting with
      it shows a value. */
  lemma {:induction false} KeyPresentIffShown(s: Section, key: string)
    requires s.WellFormed()
    ensures key in Render(s) <==>
              exists path: seq<string> {:induction false} :: path != [] && path[0] == key && Shown(s, path).Some?
  {
    if key in Render(s) {
      var path := ShownPath(s, key);
    }
    forall path: seq<string> | path != [] && path[0] == key && Shown(s, path).Some?
      ensures key in Render(s)
    {
      RenderShowsPaths(s, path);
    }
  }

  // ----- loading -----

  datatype Loaded<+T> = Ok(section: T) | Rejected

  /** The instance a section class builds from nothing. */
  function Defaults(s: Section): Section {
    match s
    case End => End
    case LeafField(_, _, _, _, default, rest) => s.(isSet := false, value := default, rest := Defaults(rest))
    case NestedField(_, _, _, _, body, rest) => s.(isSet := false, body := Defaults(body), rest := Defaults(rest))
  }

  /** Validation of a plain mapping against the section class: unknown keys are rejected by strict
      sections, present fields are marked as set, absent ones take their defaults. */
  function Load(shape: Section, strict: bool, raw: map<string, Node>): Loaded<Section>
    decreases shape, 1
  {
    if strict && !(raw.Keys <= shape.Keys()) then Rejected else LoadFields(shape, raw)
  }

  function LoadFields(shape: Section, raw: map<string, Node>): Loaded<Section>
    decreases shape, 0
  {
    match shape
    case End => Ok(End)
    case LeafField(key, _, _, _, default, rest) =>
      (match LoadFields(rest, raw)
       case Rejected => Rejected
       case Ok(tail) =>
         if key !in raw then Ok(shape.(isSet := false, value := default, rest := tail))
         else if raw[key].Leaf? then Ok(shape.(isSet := true, value := raw[key].value, rest := tail))
         else Rejected)
    case NestedField(key, _, _, strict, body, rest) =>
      (match LoadFields(rest, raw)
       case Rejected => Rejected
       case Ok(tail) =>
         if key !in raw then Ok(shape.(isSet := false, body := Defaults(body), rest := tail))
         else if raw[key].Mapping? then
           (match Load(body, strict, raw[key].entries)
            case Rejected => Rejected
            case Ok(inner) => Ok(shape.(isSet := true, body := inner, rest := tail)))
         else Rejected)
  }

  /** Same fields with the same values at every depth, whatever is marked as set. */
  ghost predicate SameValues(s: Section, t: Section) {
    match s
    case End => t.End?
    case LeafField(key, _, _, value, _, rest) =>
      t.LeafField? && t.key == key && t.value == value && SameValues(rest, t.rest)
    case NestedField(key, _, _, _, body, rest) =>
      t.NestedField? && t.key == key && SameValues(body, t.body) && SameValues(rest, t.rest)
  }

  predicate AtDefaults(s: Section) {
    match s
    case End => true
    case LeafField(_, _, _, value, default, rest) => value == default && AtDefaults(rest)
    case NestedField(_, _, _, _, body, rest) => AtDefaults(body) && AtDefaults(rest)
  }

  /** Nothing would be lost: every field that is neither set nor marked always is at its default. */
  predicate Saveable(s: Section) {
    match s
    case End => true
    case LeafField(_, _, _, value, default, rest) => (s.Visible() || value == default) && Saveable(rest)
    case NestedField(_, _, _, _, body, rest) =>
      (if s.Visible() then Saveable(body) else AtDefaults(body)) && Saveable(rest)
  }

  lemma {:induction false} DefaultsSame(s: Section)
    ensures SameValues(Defaults(s), s) <==> AtDefaults(s)
  {
    match s
    case End =>
    case LeafField(_, _, _, _, _, rest) => DefaultsSame(rest);
    case NestedField(_, _, _, _, body, rest) => DefaultsSame(body); DefaultsSame(rest);
  }

  lemma {:induction false} UpdateNonEmpty(m: map<string, Node>, key: string, node: Node)
    ensures m[key := node] != map[]
  {
    assert key in m[key := node];
  }

  lemma {:induction false} EmptyRendering(s: Section)
    requires Render(s) == map[]
    ensures Saveable(s) <==> AtDefaults(s)
    ensures Render(Defaults(s)) == map[]
  {
    match s
    case End =>
    case LeafField(_, _, _, _, _, rest) =>
      UpdateNonEmpty(Render(rest), s.key, Leaf(s.value));
      EmptyRendering(rest);
    case NestedField(_, _, _, _, body, rest) =>
      UpdateNonEmpty(Render(rest), s.key, Mapping(Render(body)));
      EmptyRendering(rest);
      if s.Visible() { EmptyRendering(body); }
  }

  /** m says about the fields of s exactly what s renders. */
  ghost predicate Agrees(m: map<string, Node>, s: Section) {
    forall k | k in s.Keys() :: (k in m <==> k in Render(s)) && (k in m ==> m[k] == Render(s)[k])
  }

  lemma {:induction false} LoadRendered(s: Section, m: map<string, Node>)
    requires s.WellFormed() && Agrees(m, s)
    ensures var l := LoadFields(s, m);
            && l.Ok?
            && (SameValues(l.section, s) <==> Saveable(s))
            && Render(l.section) == Render(s)
    decreases s
  {
    if !s.End? {
      RenderedKeys(s.rest);
      assert Agrees(m, s.rest) by {
        forall k | k in s.rest.Keys()
          ensures (k in m <==> k in Render(s.rest)) && (k in m ==> m[k] == Render(s.rest)[k])
        {
          assert k in s.Keys();
        }
      }
      LoadRendered(s.rest, m);
      assert s.key in s.Keys();
      if s.NestedField? {
        if s.key in m {
          assert m[s.key] == Mapping(Render(s.body));
          RenderedKeys(s.body);
          LoadRendered(s.body, Render(s.body));
        } else {
          DefaultsSame(s.body);
          if s.Visible() { EmptyRendering(s.body); }
        }
      }
    }
  }

  /** Main result: loading what a section renders never fails, gives back every value at every
      depth exactly when each field neither set nor marked always holds its default, and renders
      to the same map again in every case. */
  lemma {:induction false} RoundTrip(s: Section, strict: bool)
    requires s.WellFormed()
    ensures var l := Load(s, strict, Render(s));
            && l.Ok?
            && (SameValues(l.section, s) <==> Saveable(s))
            && Render(l.section) == Render(s)
  {
    RenderedKeys(s);
    LoadRendered(s, Render(s));
  }

  // ----- the same, field by field on a path -----

  /** The fields on a path that ends in a leaf, outermost first. */
  function Along(s: Section, path: seq<string>): (fields: Option<seq<Section>>)
    ensures fields.Some? ==>
              var fs := fields.value;
              && |fs| == |path| > 0 && fs[|fs| - 1].LeafField?
              && forall i | 0 <= i < |fs| :: !fs[i].End?
  {
    if s.End? || path == [] then None
    else if path[0] != s.key then Along(s.rest, path)
    else if s.LeafField? then (if |path| == 1 then Some([s]) else None)
    else
      match Along(s.body, path[1..])
      case None => None
      case Some(inner) => Some([s] + inner)
  }

  ghost predicate Marked(fields: seq<Section>)
    requires forall i | 0 <= i < |fields| :: !fields[i].End?
  {
    forall i | 0 <= i < |fields| :: fields[i].isSet || fields[i].always
  }

  lemma {:induction false} MarkedSplit(s: Section, inner: seq<Section>)
    requires !s.End? && forall i | 0 <= i < |inner| :: !inner[i].End?
    ensures Marked([s] + inner) <==> (s.isSet || s.always) && Marked(inner)
  {
    var all := [s] + inner;
    if Marked(all) {
      assert all[0] == s;
      assert forall i | 0 <= i < |inner| :: inner[i] == all[i + 1];
    }
  }

  lemma {:induction false} ShownAlong(s: Section, path: seq<string>)
    ensures var fs := Along(s, path);
            Shown(s, path) ==
            if fs.Some? && Marked(fs.value) then Some(fs.value[|fs.value| - 1].value) else None
    decreases s
  {
    hide Marked;
    if !s.End? {
      if path == [] || path[0] != s.key {
        ShownAlong(s.rest, path);
      } else if s.LeafField? {
        assert [s] + [] == [s];
        MarkedSplit(s, []);
        assert Marked([]) by { MarkedNothing(); }
      } else {
        ShownAlong(s.body, path[1..]);
        var inner := Along(s.body, path[1..]);
        if inner.Some? { MarkedSplit(s, inner.value); }
      }
    }
  }

  lemma {:induction false} MarkedNothing()
    ensures Marked([])
  {
  }

  /** A value is written to the map exactly when every field on its path is explicitly set or marked to
      be rendered always; every other path holds nothing. */
  lemma {:induction false} RenderedIffMarked(s: Section, path: seq<string>)
    requires s.WellFormed()
    ensures var fs := Along(s, path);
            Lookup(Render(s), path) ==
            if fs.Some? && (forall i | 0 <= i < |fs.value| :: fs.value[i].isSet || fs.value[i].always)
            then Some(fs.value[|fs.value| - 1].value)
            else None
  {
    hide Along, Render, Lookup;
    RenderShowsPaths(s, path);
    ShownAlong(s, path);
  }

  /** On a path that ends in a leaf the value is its default, or every field is set or marked. */
  ghost predicate Kept(fields: seq<Section>)
    requires fields != [] && fields[|fields| - 1].LeafField? && forall i | 0 <= i < |fields| :: !fields[i].End?
  {
    || fields[|fields| - 1].value == fields[|fields| - 1].default
    || forall i | 0 <= i < |fields| :: fields[i].isSet || fields[i].always
  }

  lemma {:induction false} KeptSplit(s: Section, inner: seq<Section>)
    requires !s.End? && inner != [] && inner[|inner| - 1].LeafField?
    requires forall i | 0 <= i < |inner| :: !inner[i].End?
    ensures var leaf := inner[|inner| - 1];
            Kept([s] + inner) <==> leaf.value == leaf.default || ((s.isSet || s.always) && Kept(inner))
  {
    MarkedSplit(s, inner);
  }

  lemma {:induction false} AtDefaultsAlong(s: Section, path: seq<string>)
    requires AtDefaults(s)
    ensures var fs := Along(s, path);
            fs.Some? ==> fs.value[|fs.value| - 1].value == fs.value[|fs.value| - 1].default
    decreases s
  {
    if !s.End? && path != [] {
      if path[0] != s.key {
        AtDefaultsAlong(s.rest, path);
      } else if s.NestedField? {
        AtDefaultsAlong(s.body, path[1..]);
      }
    }
  }

  lemma {:induction false} SaveableAlong(s: Section, path: seq<string>)
    requires Saveable(s)
    ensures Along(s, path).Some? ==> Kept(Along(s, path).value)
    decreases s
  {
    hide Kept, AtDefaults;
    if !s.End? && path != [] {
      if path[0] != s.key {
        SaveableAlong(s.rest, path);
      } else if s.LeafField? {
        KeptLeaf(s);
      } else {
        var inner := Along(s.body, path[1..]);
        if s.Visible() { SaveableAlong(s.body, path[1..]); } else { AtDefaultsAlong(s.body, path[1..]); }
        if inner.Some? { KeptSplit(s, inner.value); }
      }
    }
  }

  lemma {:induction false} KeptLeaf(s: Section)
    requires s.LeafField?
    ensures Kept([s]) <==> s.value == s.default || s.isSet || s.always
  {
    assert [s][0] == s;
  }

  lemma {:induction false} AlongKeys(s: Section, path: seq<string>)
    requires Along(s, path).Some?
    ensures path != [] && path[0] in s.Keys()
    decreases s
  {
    if path[0] != s.key { AlongKeys(s.rest, path); }
  }

  lemma {:induction false} LeafOffDefault(s: Section) returns (path: seq<string>)
    requires s.WellFormed() && !AtDefaults(s)
    ensures var fs := Along(s, path);
            fs.Some? && fs.value[|fs.value| - 1].value != fs.value[|fs.value| - 1].default
    decreases s
  {
    if !AtDefaults(s.rest) {
      path := LeafOffDefault(s.rest);
      AlongKeys(s.rest, path);
    } else if s.LeafField? {
      path := [s.key];
    } else {
      var tail := LeafOffDefault(s.body);
      path := [s.key] + tail;
      assert path[1..] == tail;
    }
  }

  lemma {:induction false} LostLeaf(s: Section) returns (path: seq<string>)
    requires s.WellFormed() && !Saveable(s)
    ensures Along(s, path).Some? && !Kept(Along(s, path).value)
    decreases s
  {
    hide Kept;
    if !Saveable(s.rest) {
      path := LostLeaf(s.rest);
      AlongKeys(s.rest, path);
    } else if s.LeafField? {
      path := [s.key];
      KeptLeaf(s);
    } else {
      var tail;
      if s.Visible() { tail := LostLeaf(s.body); } else { tail := LeafOffDefault(s.body); }
      path := [s.key] + tail;
      assert path[1..] == tail;
      KeptSplit(s, Along(s.body, tail).value);
      if s.Visible() { KeptOrDefault(Along(s.body, tail).value); }
    }
  }

  lemma {:induction false} KeptOrDefault(fields: seq<Section>)
    requires fields != [] && fields[|fields| - 1].LeafField? && forall i | 0 <= i < |fields| :: !fields[i].End?
    ensures fields[|fields| - 1].value == fields[|fields| - 1].default ==> Kept(fields)
  {
  }

  /** The round-trip condition, path by path: every leaf is at its default or has only fields on its
      path that are set or marked to be rendered always. */
  lemma {:induction false} SaveableIff(s: Section)
    requires s.WellFormed()
    ensures Saveable(s) <==> forall path: seq<string> {:induction false} ::
              var fs := Along(s, path);
              fs.Some? ==>
                || fs.value[|fs.value| - 1].value == fs.value[|fs.value| - 1].default
                || forall i | 0 <= i < |fs.value| :: fs.value[i].isSet || fs.value[i].always
  {
    if Saveable(s) {
      forall path: seq<string>
        ensures Along(s, path).Some? ==> Kept(Along(s, path).value)
      {
        SaveableAlong(s, path);
      }
    } else {
      var path := LostLeaf(s);
    }
  }

  // ----- what loading refuses -----

  function Fields(s: Section): seq<Section> {
    if s.End? then [] else [s] + Fields(s.rest)
  }

  /** The entry of a field in a mapping is missing, a leaf for a leaf, or a mapping its section loads. */
  ghost predicate Accepts(field: Section, raw: map<string, Node>) {
    field.End? || field.key !in raw || (
      if field.LeafField? then raw[field.key].Leaf?
      else raw[field.key].Mapping? && Load(field.body, field.strict, raw[field.key].entries).Ok?)
  }

  lemma {:induction false} LoadFieldsIff(shape: Section, raw: map<string, Node>)
    ensures LoadFields(shape, raw).Ok? <==> forall i | 0 <= i < |Fields(shape)| :: Accepts(Fields(shape)[i], raw)
  {
    hide Accepts;
    if !shape.End? {
      LoadFieldsIff(shape.rest, raw);
      var fs := Fields(shape);
      assert forall i | 0 <= i < |fs| - 1 :: fs[i + 1] == Fields(shape.rest)[i];
      assert fs[0] == shape;
      assert LoadFields(shape, raw).Ok? <==> LoadFields(shape.rest, raw).Ok? && Accepts(shape, raw) by {
        LoadFieldNext(shape, raw);
      }
      if forall i | 0 <= i < |fs| :: Accepts(fs[i], raw) {
        assert forall i | 0 <= i < |Fields(shape.rest)| :: Accepts(Fields(shape.rest)[i], raw) by {
          assert forall i | 0 <= i < |Fields(shape.rest)| :: Fields(shape.rest)[i] == fs[i + 1];
        }
      }
    }
  }

  lemma {:induction false} LoadFieldNext(shape: Section, raw: map<string, Node>)
    requires !shape.End?
    ensures LoadFields(shape, raw).Ok? <==> LoadFields(shape.rest, raw).Ok? && Accepts(shape, raw)
  {
  }

  lemma {:induction false} KeysAreFields(s: Section, key: string)
    ensures key in s.Keys() <==> exists i :: 0 <= i < |Fields(s)| && !Fields(s)[i].End? && Fields(s)[i].key == key
  {
    if !s.End? {
      KeysAreFields(s.rest, key);
      var fs := Fields(s);
      assert fs[0] == s && forall i | 0 <= i < |fs| - 1 :: fs[i + 1] == Fields(s.rest)[i];
      if i :| 0 <= i < |Fields(s.rest)| && !Fields(s.rest)[i].End? && Fields(s.rest)[i].key == key {
        assert fs[i + 1].key == key;
      }
    }
  }

  /** A mapping loads exactly when every field accepts its entry and, in a strict section, every key
      belongs to a field. */
  lemma {:induction false} LoadIff(shape: Section, strict: bool, raw: map<string, Node>)
    ensures Load(shape, strict, raw).Ok? <==>
              && (forall i | 0 <= i < |Fields(shape)| :: Accepts(Fields(shape)[i], raw))
              && (strict ==> forall k | k in raw ::
                    exists i :: 0 <= i < |Fields(shape)| && !Fields(shape)[i].End? && Fields(shape)[i].key == k)
  {
    hide Fields, Accepts;
    LoadFieldsIff(shape, raw);
    forall k | k in raw
      ensures k in shape.Keys() <==>
              exists i :: 0 <= i < |Fields(shape)| && !Fields(shape)[i].End? && Fields(shape)[i].key == k
    {
      KeysAreFields(shape, k);
    }
  }

  // ----- the file -----

  /** How the root treats a section without content: required sections are default-built, managed
      ones too but also on an explicit null, optional ones are None. */
  datatype Presence = Required | Managed | Optional

  function FileEntry(section: Option<Section>): Option<Node> {
    match section
    case None => None
    case Some(s) => if Render(s) == map[] then None else Some(Mapping(Render(s)))
  }

  function LoadEntry(shape: Section, strict: bool, presence: Presence, entry: Option<Node>): Loaded<Option<Section>> {
    match entry
    case None => Ok(if presence.Optional? then None else Some(Defaults(shape)))
    case Some(Leaf(Null)) =>
      (match presence
       case Required => Rejected
       case Managed => Ok(Some(Defaults(shape)))
       case Optional => Ok(None))
    case Some(Leaf(_)) => Rejected
    case Some(Mapping(entries)) =>
      (match Load(shape, strict, entries)
       case Rejected => Rejected
       case Ok(s) => Ok(Some(s)))
  }

  /** A missing top-level key gives a default section, or None for an optional one; an explicit null is
      refused by required sections, coerced to defaults by managed ones and None for optional ones; any
      other scalar is refused. */
  lemma {:induction false} EntryWithoutMapping(shape: Section, strict: bool, presence: Presence, value: Scalar)
    ensures var missing, l := LoadEntry(shape, strict, presence, None),
                              LoadEntry(shape, strict, presence, Some(Leaf(value)));
            && missing.Ok? && (missing.section.None? <==> presence == Optional)
            && (missing.section.Some? ==> missing.section.value == Defaults(shape))
            && (l.Ok? <==> value == Null && presence != Required)
            && (l.Ok? ==> l.section == if presence == Optional then None else Some(Defaults(shape)))
  {
  }

  /** A top-level section survives the file exactly when it is saveable and, if it is an optional
      one, it renders something. */
  lemma {:induction false} EntryRoundTrip(s: Section, strict: bool, presence: Presence)
    requires s.WellFormed()
    ensures var l := LoadEntry(s, strict, presence, FileEntry(Some(s)));
            && l.Ok?
            && (l.section.Some? && SameValues(l.section.value, s)
                <==> Saveable(s) && (presence.Optional? ==> Render(s) != map[]))
            && FileEntry(l.section) == FileEntry(Some(s))
  {
    RoundTrip(s, strict);
    if Render(s) == map[] {
      DefaultsSame(s);
      EmptyRendering(s);
    }
  }

  ghost predicate Holds(m: map<string, Node>, key: string, entry: Option<Node>) {
    if entry.Some? then key in m && m[key] == entry.value else key !in m
  }

  /** A top-level key with the section class that reads it. */
  datatype Slot = Slot(key: string, shape: Section, strict: bool, presence: Presence)

  /** Loading a whole file: the root rejects unknown keys, then every section is read. */
  function LoadFile(slots: seq<Slot>, raw: map<string, Node>): Loaded<seq<Option<Section>>> {
    if raw.Keys <= SlotKeys(slots) then LoadSlots(slots, raw) else Rejected
  }

  function SlotKeys(slots: seq<Slot>): set<string> { set i | 0 <= i < |slots| :: slots[i].key }

  function LoadSlots(slots: seq<Slot>, raw: map<string, Node>): Loaded<seq<Option<Section>>> {
    if slots == [] then Ok([])
    else
      var slot := slots[|slots| - 1];
      match LoadSlots(slots[..|slots| - 1], raw)
      case Rejected => Rejected
      case Ok(before) =>
        match LoadEntry(slot.shape, slot.strict, slot.presence, if slot.key in raw then Some(raw[slot.key]) else None)
        case Rejected => Rejected
        case Ok(section) => Ok(before + [section])
  }

  /** The sections are instances of the classes the slots name. */
  ghost predicate Instances(slots: seq<Slot>, sections: seq<Option<Section>>) {
    && |slots| == |sections|
    && forall i | 0 <= i < |slots| && sections[i].Some? ::
         slots[i].shape == sections[i].value && sections[i].value.WellFormed()
  }

  /** The file says of every section what it renders, as `SyncToMap` leaves it. */
  ghost predicate Synced(m: map<string, Node>, slots: seq<Slot>, sections: seq<Option<Section>>)
    requires |slots| == |sections|
  {
    forall i | 0 <= i < |slots| :: Holds(m, slots[i].key, FileEntry(sections[i]))
  }

  ghost predicate Restored(loaded: Option<Section>, section: Option<Section>) {
    if section.None? then loaded.None? else loaded.Some? && SameValues(loaded.value, section.value)
  }

  predicate Survives(slot: Slot, section: Option<Section>) {
    match section
    case None => slot.presence.Optional?
    case Some(s) => Saveable(s) && (slot.presence.Optional? ==> Render(s) != map[])
  }

  /** What a reloaded section is worth: it is the saved one exactly when that one survives, and it
      renders to the same entry, unless the saved one was missing where none may be. */
  ghost predicate ReadBack(slot: Slot, loaded: Option<Section>, section: Option<Section>) {
    && (Restored(loaded, section) <==> Survives(slot, section))
    && (section.Some? || slot.presence.Optional? ==> FileEntry(loaded) == FileEntry(section))
  }

  lemma {:induction false} SlotRoundTrip(slot: Slot, section: Option<Section>)
    requires section.Some? ==> slot.shape == section.value && section.value.WellFormed()
    ensures var l := LoadEntry(slot.shape, slot.strict, slot.presence, FileEntry(section));
            l.Ok? && ReadBack(slot, l.section, section)
  {
    if section.Some? { EntryRoundTrip(section.value, slot.strict, slot.presence); }
  }

  lemma {:induction false} SlotsRoundTrip(slots: seq<Slot>, sections: seq<Option<Section>>, m: map<string, Node>)
    requires Instances(slots, sections) && Synced(m, slots, sections)
    ensures var l := LoadSlots(slots, m);
            && l.Ok? && |l.section| == |sections|
            && forall i | 0 <= i < |slots| :: ReadBack(slots[i], l.section[i], sections[i])
  {
    hide ReadBack, LoadEntry, FileEntry;
    if slots != [] {
      var n := |slots| - 1;
      SlotsRoundTrip(slots[..n], sections[..n], m);
      assert Holds(m, slots[n].key, FileEntry(sections[n]));
      SlotRoundTrip(slots[n], sections[n]);
    }
  }

  /** The whole file: a synchronised file loads exactly when no key outside the sections was left in
      it, and then every section is read back as it was exactly when it survives its slot. */
  lemma {:induction false} FileRoundTrip(slots: seq<Slot>, sections: seq<Option<Section>>, m: map<string, Node>)
    requires Instances(slots, sections) && Synced(m, slots, sections)
    ensures var l := LoadFile(slots, m);
            && (l.Ok? <==> m.Keys <= SlotKeys(slots))
            && (l.Ok? ==>
                  && |l.section| == |sections|
                  && forall i | 0 <= i < |slots| :: ReadBack(slots[i], l.section[i], sections[i]))
  {
    hide ReadBack;
    SlotsRoundTrip(slots, sections, m);
  }

  class ConfigFile {
    /** The live map kept from loading, written back in place. */
    var yamlMap: map<string, Node>

    constructor (loaded: Option<map<string, Node>>)
      ensures yamlMap == if loaded.Some? then loaded.value else map[]
    {
      yamlMap := if loaded.Some? then loaded.value else map[];
    }

    /** Every section key ends up exactly as its section renders; keys that belong to no section
        stay as they were. */
    method SyncToMap(keys: seq<string>, sections: seq<Option<Section>>)
      requires |keys| == |sections|
      requires forall i, j | 0 <= i < j < |keys| :: keys[i] != keys[j]
      requires forall i | 0 <= i < |sections| :: sections[i].Some? ==> sections[i].value.WellFormed()
      modifies this
      ensures forall i | 0 <= i < |keys| :: Holds(yamlMap, keys[i], FileEntry(sections[i]))
      ensures forall k | k !in keys :: k in yamlMap <==> k in old(yamlMap)
      ensures forall k | k !in keys && k in yamlMap :: yamlMap[k] == old(yamlMap)[k]
    {
      for i := 0 to |keys|
        invariant forall j | 0 <= j < i :: Holds(yamlMap, keys[j], FileEntry(sections[j]))
        invariant forall k | k !in keys :: k in yamlMap <==> k in old(yamlMap)
        invariant forall k | k !in keys && k in yamlMap :: yamlMap[k] == old(yamlMap)[k]
      {
        var key := keys[i];
        match sections[i] {
          case None =>
            yamlMap := yamlMap - {key};
          case Some(s) =>
            var existing :=
              if key in yamlMap && yamlMap[key].Mapping? then Some(yamlMap[key].entries) else None;
            var newMap := SectionToMap(s, existing);
            if newMap == map[] {
              yamlMap := yamlMap - {key};
            } else {
              yamlMap := yamlMap[key := Mapping(newMap)];
            }
        }
      }
    }
  }
}
