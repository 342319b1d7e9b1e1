/** Configuration files that include other files. */
module JsonIncluder {
  import opened Basics

  datatype Json =
    | Obj(fields: map<string, Json>)
    | Arr(items: seq<Json>)
    | Str(text: string)
    | Num(number: real)
    | Bool(flag: bool)
    | Null

  /** What expanding a document ends in: a document, an exception, or a load nested deeper than
      `depth` allowed.  A document that is `TooDeep` at every depth is one that is never
      finished. */
  datatype Outcome<T> = Done(value: T) | Throws | TooDeep {
    predicate IsFailure() {
      !Done?
    }
    function PropagateFailure<U>(): Outcome<U>
      requires IsFailure()
    {
      if Throws? then Throws else TooDeep
    }
    function Extract(): T
      requires Done?
    {
      value
    }
  }

  /** The contents of a file. */
  datatype File = Parsed(root: Json) | Malformed

  type Files = map<string, File>

  const INCLUDE: string := "include"

  /** The part of a path up to its last separator, that included. */
  function Directory(path: string): string {
    if path == [] then []
    else if path[|path| - 1] == '/' || path[|path| - 1] == '\\' then path
    else Directory(path[..|path| - 1])
  }

  /** The entries a loop over a value's items sees. */
  function Items(j: Json): map<string, Json> {
    match j
    case Obj(fields) => fields
    case Arr(items) => Indexed(items)
    case Str(_) => map["" := j]
    case Num(_) => map["" := j]
    case Bool(_) => map["" := j]
    case Null => map[]
  }

  function Indexed(items: seq<Json>): map<string, Json> {
    if items == [] then map[]
    else Indexed(items[..|items| - 1])[Decimal(|items| - 1) := items[|items| - 1]]
  }

  /** `loadAndInclude`, with at most `depth` loads nested in one another. */
  ghost function Load(files: Files, name: string, depth: nat): (r: Outcome<Json>)
    ensures r.Done? ==> depth > 0
    decreases depth, 0
  {
    if name !in files || files[name].Malformed? then Throws
    else if depth == 0 then TooDeep
    else Expand(files, files[name].root, name, depth - 1)
  }

  /** The file an object asks to be merged with. */
  function Target(fields: map<string, Json>, base: string): string
    requires INCLUDE in fields && fields[INCLUDE].Str?
  {
    Directory(base) + fields[INCLUDE].text
  }

  /** `processIncludes`: merge the included entries that the object does not have itself, drop the
      include entry, then process every entry. */
  ghost function Expand(files: Files, node: Json, base: string, depth: nat): Outcome<Json>
    decreases depth, 1, node
  {
    match node
    case Obj(fields) =>
      if INCLUDE !in fields then
        AllFields(OwnFields(files, node, base, depth))
      else if !fields[INCLUDE].Str? then Throws
      else
        var included :- Load(files, Target(fields, base), depth);
        AllFields(MergedFields(files, node, included, base, depth))
    case Arr(items) =>
      AllItems(OwnItems(files, node, base, depth))
    case _ => Done(node)
  }

  ghost function OwnFields(files: Files, node: Json, base: string, depth: nat): map<string, Outcome<Json>>
    requires node.Obj?
    decreases depth, 1, node, 0
  {
    map key | key in node.fields :: Expand(files, node.fields[key], base, depth)
  }

  /** The entries of a merged object: its own win over the included ones, which come expanded. */
  ghost function MergedFields(files: Files, node: Json, included: Json, base: string, depth: nat): map<string, Outcome<Json>>
    requires node.Obj? && depth > 0
    decreases depth, 1, node, 0
  {
    map key | key in Items(included).Keys + node.fields.Keys - {INCLUDE} ::
      if key in node.fields then Expand(files, node.fields[key], base, depth)
      else Expand(files, Items(included)[key], base, depth - 1)
  }

  ghost function OwnItems(files: Files, node: Json, base: string, depth: nat): seq<Outcome<Json>>
    requires node.Arr?
    decreases depth, 1, node, 0
  {
    seq(|node.items|, i requires 0 <= i < |node.items| => Expand(files, node.items[i], base, depth))
  }

  /** The order in which an object's entries are processed: by key. */
  predicate Less(a: string, b: string) {
    b != [] && (a == [] || a[0] < b[0] || (a[0] == b[0] && Less(a[1..], b[1..])))
  }

  ghost predicate FailsFirst(outs: map<string, Outcome<Json>>, key: string) {
    && key in outs && outs[key].IsFailure()
    && forall other | other in outs && other != key && outs[other].IsFailure() :: Less(key, other)
  }

  /** The object of all entries, or the first failure among them. */
  ghost function AllFields(outs: map<string, Outcome<Json>>): Outcome<Json> {
    if forall key | key in outs :: outs[key].Done? then Done(Obj(map key | key in outs :: outs[key].value))
    else
      SomeFieldFailsFirst(outs);
      var key :| FailsFirst(outs, key);
      outs[key]
  }

  ghost predicate ItemFailsFirst(outs: seq<Outcome<Json>>, i: int) {
    0 <= i < |outs| && outs[i].IsFailure() && forall j | 0 <= j < i :: outs[j].Done?
  }

  /** The array of all items, or the first failure among them. */
  ghost function AllItems(outs: seq<Outcome<Json>>): Outcome<Json> {
    if forall i | 0 <= i < |outs| :: outs[i].Done? then Done(Arr(seq(|outs|, i requires 0 <= i < |outs| => outs[i].value)))
    else
      SomeItemFailsFirst(outs);
      var i :| ItemFailsFirst(outs, i);
      outs[i]
  }

  // ---- keys in order ----

  lemma {:induction false} LessIsTotal(a: string, b: string)
    ensures a == b || Less(a, b) || Less(b, a)
    ensures !(Less(a, b) && Less(b, a)) && !Less(a, a)
  {
    if a != [] {
      LessIsTotal(a[1..], a[1..]);
    }
    if a != [] && b != [] {
      LessIsTotal(a[1..], b[1..]);
      if a[0] == b[0] && a[1..] == b[1..] {
        assert a == [a[0]] + a[1..] && b == [b[0]] + b[1..];
      }
    }
  }

  lemma {:induction false} LessIsTransitive(a: string, b: string, c: string)
    requires Less(a, b) && Less(b, c)
    ensures Less(a, c)
  {
    if a != [] && a[0] == b[0] == c[0] {
      LessIsTransitive(a[1..], b[1..], c[1..]);
    }
  }

  ghost predicate IsLeast(keys: set<string>, key: string) {
    key in keys && forall other | other in keys && other != key :: Less(key, other)
  }

  lemma {:induction false} LeastOf(keys: set<string>) returns (key: string)
    requires keys != {}
    ensures IsLeast(keys, key)
  {
    hide Less;
    key :| key in keys;
    var rest := keys - {key};
    if rest != {} {
      var least := LeastOf(rest);
      LessIsTotal(key, least);
      if Less(key, least) {
        forall other | other in rest && other != least
          ensures Less(key, other)
        {
          LessIsTransitive(key, least, other);
        }
      } else {
        key := least;
      }
    } else {
      assert keys == {key};
    }
  }

  lemma SomeFieldFailsFirst(outs: map<string, Outcome<Json>>)
    requires exists key :: key in outs && outs[key].IsFailure()
    ensures exists key :: FailsFirst(outs, key)
  {
    var failing := set key | key in outs && outs[key].IsFailure();
    var key :| key in outs && outs[key].IsFailure();
    assert key in failing;
    var first := LeastOf(failing);
    assert FailsFirst(outs, first);
  }

  lemma {:induction false} SomeItemFailsFirst(outs: seq<Outcome<Json>>)
    requires exists i :: 0 <= i < |outs| && outs[i].IsFailure()
    ensures exists i :: ItemFailsFirst(outs, i)
  {
    var last := |outs| - 1;
    var less := outs[..last];
    if i :| 0 <= i < |less| && less[i].IsFailure() {
      SomeItemFailsFirst(less);
      var j :| ItemFailsFirst(less, j);
      assert ItemFailsFirst(outs, j);
    } else {
      assert ItemFailsFirst(outs, last);
    }
  }

  // ---- which file an include loads ----

  predicate IsSeparator(c: char) {
    c == '/' || c == '\\'
  }

  /** `dir` is the current directory, or names one by ending in a separator; `name` is in it. */
  predicate InDirectory(dir: string, name: string) {
    (dir == [] || IsSeparator(dir[|dir| - 1])) && forall i :: 0 <= i < |name| ==> !IsSeparator(name[i])
  }

  /** However a path is split into a directory and a name without separators, the directory is what
      `Directory` finds. */
  lemma {:induction false} DirectoryExactly(dir: string, name: string)
    requires InDirectory(dir, name)
    ensures Directory(dir + name) == dir
    decreases |name|
  {
    if name == [] {
      assert dir + name == dir;
    } else {
      assert (dir + name)[..|dir + name| - 1] == dir + name[..|name| - 1];
      DirectoryExactly(dir, name[..|name| - 1]);
    }
  }

  /** An object in the file `dir + name` that includes `text` depends on the file `dir + text`: if that
      fails to load, so does the object, in the same way; and otherwise every entry that the object
      does not have itself comes from there. */
  lemma IncludesFromOwnDirectory(files: Files, dir: string, name: string, fields: map<string, Json>, text: string, depth: nat)
    requires InDirectory(dir, name) && INCLUDE in fields && fields[INCLUDE] == Str(text)
    ensures var loaded := Load(files, dir + text, depth);
            var r := Expand(files, Obj(fields), dir + name, depth);
            && (loaded.Throws? ==> r.Throws?)
            && (loaded.TooDeep? ==> r.TooDeep?)
            && (r.Done? ==> loaded.Done? && r.value.Obj?
                            && forall key | key in Items(loaded.value) && key !in fields ::
                                 key in r.value.fields && r.value.fields[key] == Items(loaded.value)[key])
  {
    DirectoryExactly(dir, name);
    if Expand(files, Obj(fields), dir + name, depth).Done? {
      OwnEntriesWin(files, fields, dir + name, depth);
    }
  }

  /** A file that includes one beside it, with nothing else in it, is that other file. */
  lemma SiblingExample(files: Files)
    requires "cfg/a.json" in files && files["cfg/a.json"] == Parsed(Obj(map[INCLUDE := Str("b.json")]))
    requires "cfg/b.json" in files && files["cfg/b.json"] == Parsed(Obj(map["x" := Num(1.0)]))
    ensures Load(files, "cfg/a.json", 2) == Done(Obj(map["x" := Num(1.0)]))
  {
    var a: map<string, Json>, b := map[INCLUDE := Str("b.json")], Obj(map["x" := Num(1.0)]);
    assert "cfg/" + "b.json" == "cfg/b.json" && "cfg/" + "a.json" == "cfg/a.json";
    PlainStays(files, b, "cfg/b.json", 0);
    DirectoryExactly("cfg/", "a.json");
    var outs := MergedFields(files, Obj(a), b, "cfg/a.json", 1);
    assert INCLUDE != "x" && outs.Keys == {"x"};
    PlainStays(files, Num(1.0), "cfg/a.json", 0);
    FieldsDone(outs);
    assert outs["x"] == Done(Num(1.0));
    assert AllFields(outs).value.fields == map["x" := Num(1.0)];
  }

  // ---- the order of keys ----

  /** One key comes before another exactly if it is a proper beginning of it, or has the smaller
      character at the first place where they differ. */
  lemma {:induction false} LessExactly(a: string, b: string)
    ensures Less(a, b) <==> (a <= b && a != b) || exists k :: FirstDifference(a, b, k) && a[k] < b[k]
  {
    if a != [] && b != [] && a[0] == b[0] {
      LessExactly(a[1..], b[1..]);
      assert a == [a[0]] + a[1..] && b == [b[0]] + b[1..];
      if k :| FirstDifference(a[1..], b[1..], k) && a[1..][k] < b[1..][k] {
        assert forall j :: 0 <= j < k + 1 ==> a[j] == b[j] by {
          assert forall j :: 0 < j < k + 1 ==> a[j] == a[1..][j - 1] && b[j] == b[1..][j - 1];
        }
        assert FirstDifference(a, b, k + 1);
      }
      if k :| FirstDifference(a, b, k) && a[k] < b[k] {
        assert FirstDifference(a[1..], b[1..], k - 1);
      }
    } else if a != [] && b != [] {
      assert FirstDifference(a, b, 0);
    }
  }

  ghost predicate FirstDifference(a: string, b: string, k: int) {
    0 <= k < |a| && k < |b| && a[k] != b[k] && forall j :: 0 <= j < k ==> a[j] == b[j]
  }

  // ---- what expanding does without an include ----

  /** An object without an include keeps its keys, each with its value expanded; an array keeps its
      length and order. */
  lemma ShapeIsKept(files: Files, node: Json, base: string, depth: nat)
    requires Expand(files, node, base, depth).Done?
    ensures var r := Expand(files, node, base, depth).value;
            && (node.Obj? && INCLUDE !in node.fields ==>
                  r.Obj? && r.fields.Keys == node.fields.Keys
                  && forall key | key in node.fields :: Expand(files, node.fields[key], base, depth) == Done(r.fields[key]))
            && (node.Arr? ==>
                  r.Arr? && |r.items| == |node.items|
                  && forall i | 0 <= i < |node.items| :: Expand(files, node.items[i], base, depth) == Done(r.items[i]))
            && (!node.Obj? && !node.Arr? ==> r == node)
  {
    if node.Obj? && INCLUDE !in node.fields {
      FieldsDone(OwnFields(files, node, base, depth));
    } else if node.Arr? {
      ItemsDone(OwnItems(files, node, base, depth));
    }
  }

  // ---- when expanding succeeds ----

  /** Every include that expanding `node` meets names, as text, a file that is there, is JSON, and is
      so itself, no deeper than `depth`. */
  ghost predicate Resolves(files: Files, node: Json, base: string, depth: nat)
    decreases depth, 1, node
  {
    match node
    case Obj(fields) =>
      && (INCLUDE in fields ==> fields[INCLUDE].Str? && FileResolves(files, Target(fields, base), depth))
      && (forall key | key in fields && key != INCLUDE :: Resolves(files, fields[key], base, depth))
    case Arr(items) => forall i | 0 <= i < |items| :: Resolves(files, items[i], base, depth)
    case _ => true
  }

  ghost predicate FileResolves(files: Files, name: string, depth: nat)
    decreases depth, 0
  {
    && depth > 0 && name in files && files[name].Parsed?
    && Resolves(files, files[name].root, name, depth - 1)
  }

  lemma {:induction false} LoadsExactly(files: Files, name: string, depth: nat)
    ensures Load(files, name, depth).Done? <==> FileResolves(files, name, depth)
    decreases depth, 0
  {
    if depth > 0 && name in files && files[name].Parsed? {
      ExpandsExactly(files, files[name].root, name, depth - 1);
    }
  }

  /** Expanding succeeds exactly when all the files it needs are there and in order: nothing else
      makes it fail. */
  lemma {:induction false} ExpandsExactly(files: Files, node: Json, base: string, depth: nat)
    ensures Expand(files, node, base, depth).Done? <==> Resolves(files, node, base, depth)
    decreases depth, 1, node
  {
    match node
    case Obj(fields) =>
      forall key | key in fields
        ensures Expand(files, fields[key], base, depth).Done? <==> Resolves(files, fields[key], base, depth)
      {
        ExpandsExactly(files, fields[key], base, depth);
      }
      if INCLUDE !in fields {
        var outs := OwnFields(files, node, base, depth);
        FieldsDone(outs);
        assert forall key | key in fields :: key in outs && outs[key] == Expand(files, fields[key], base, depth);
      } else if fields[INCLUDE].Str? {
        LoadsExactly(files, Target(fields, base), depth);
        if Load(files, Target(fields, base), depth).Done? {
          MergedDone(files, node, base, depth);
        }
      }
    case Arr(items) =>
      var outs := OwnItems(files, node, base, depth);
      ItemsDone(outs);
      forall i | 0 <= i < |items|
        ensures outs[i].Done? <==> Resolves(files, items[i], base, depth)
      {
        ExpandsExactly(files, items[i], base, depth);
      }
    case _ =>
  }

  lemma MergedDone(files: Files, node: Json, base: string, depth: nat)
    requires node.Obj? && INCLUDE in node.fields && node.fields[INCLUDE].Str?
    requires Load(files, Target(node.fields, base), depth).Done?
    ensures Expand(files, node, base, depth).Done? <==>
            forall key | key in node.fields && key != INCLUDE :: Expand(files, node.fields[key], base, depth).Done?
  {
    var included := Load(files, Target(node.fields, base), depth).value;
    var outs := MergedFields(files, node, included, base, depth);
    FieldsDone(outs);
    LoadIsPlain(files, Target(node.fields, base), depth);
    forall key | key in outs && key !in node.fields
      ensures outs[key].Done?
    {
      ItemsPlain(included, key);
      PlainStays(files, Items(included)[key], base, depth - 1);
    }
    assert forall key | key in node.fields && key != INCLUDE :: key in outs && outs[key] == Expand(files, node.fields[key], base, depth);
  }

  // ---- nothing is left to include ----

  /** No object, at any depth, has an include entry. */
  predicate Plain(j: Json) {
    match j
    case Obj(fields) => INCLUDE !in fields && forall key | key in fields :: Plain(fields[key])
    case Arr(items) => forall i | 0 <= i < |items| :: Plain(items[i])
    case _ => true
  }

  lemma FieldsDone(outs: map<string, Outcome<Json>>)
    ensures AllFields(outs).Done? <==> forall key | key in outs :: outs[key].Done?
    ensures AllFields(outs).TooDeep? ==> exists key | key in outs :: outs[key].TooDeep?
    ensures AllFields(outs).Done? ==>
              var r := AllFields(outs).value;
              r.Obj? && r.fields.Keys == outs.Keys && forall key | key in outs :: outs[key] == Done(r.fields[key])
  {
    hide Less;
    if exists key :: key in outs && outs[key].IsFailure() {
      SomeFieldFailsFirst(outs);
    }
  }

  lemma FieldsFail(outs: map<string, Outcome<Json>>, key: string)
    requires FailsFirst(outs, key)
    ensures AllFields(outs) == outs[key]
  {
    var first :| FailsFirst(outs, first) && AllFields(outs) == outs[first];
    OnlyOneFailsFirst(outs, first, key);
  }

  lemma OnlyOneFailsFirst(outs: map<string, Outcome<Json>>, a: string, b: string)
    requires FailsFirst(outs, a) && FailsFirst(outs, b)
    ensures a == b
  {
    LessIsTotal(a, b);
  }

  /** Entries that fail for want of depth do not matter behind the first one that throws. */
  lemma FieldsStable(outs: map<string, Outcome<Json>>, outs': map<string, Outcome<Json>>)
    requires outs.Keys == outs'.Keys && !AllFields(outs).TooDeep?
    requires forall key | key in outs && !outs[key].TooDeep? :: outs'[key] == outs[key]
    ensures AllFields(outs') == AllFields(outs)
  {
    hide AllFields, Less;
    FieldsDone(outs);
    if AllFields(outs).Done? {
      assert outs' == outs;
    } else {
      assert exists key :: key in outs && outs[key].IsFailure();
      SomeFieldFailsFirst(outs);
      var key :| FailsFirst(outs, key);
      FieldsFail(outs, key);
      forall other | other in outs' && other != key && outs'[other].IsFailure()
        ensures Less(key, other)
      {
        assert outs[other].IsFailure();
      }
      FieldsFail(outs', key);
    }
  }

  lemma ItemsDone(outs: seq<Outcome<Json>>)
    ensures AllItems(outs).Done? <==> forall i | 0 <= i < |outs| :: outs[i].Done?
    ensures AllItems(outs).TooDeep? ==> exists i | 0 <= i < |outs| :: outs[i].TooDeep?
    ensures AllItems(outs).Done? ==>
              var r := AllItems(outs).value;
              r.Arr? && |r.items| == |outs| && forall i | 0 <= i < |outs| :: outs[i] == Done(r.items[i])
  {
    if exists i :: 0 <= i < |outs| && outs[i].IsFailure() {
      SomeItemFailsFirst(outs);
    }
  }

  lemma ItemsFail(outs: seq<Outcome<Json>>, i: int)
    requires ItemFailsFirst(outs, i)
    ensures AllItems(outs) == outs[i]
  {
  }

  lemma ItemsStable(outs: seq<Outcome<Json>>, outs': seq<Outcome<Json>>)
    requires |outs| == |outs'| && !AllItems(outs).TooDeep?
    requires forall i | 0 <= i < |outs| && !outs[i].TooDeep? :: outs'[i] == outs[i]
    ensures AllItems(outs') == AllItems(outs)
  {
    hide AllItems;
    ItemsDone(outs);
    if AllItems(outs).Done? {
      assert outs' == outs;
    } else {
      assert exists i :: 0 <= i < |outs| && outs[i].IsFailure();
      SomeItemFailsFirst(outs);
      var i :| ItemFailsFirst(outs, i);
      ItemsFail(outs, i);
      ItemsFail(outs', i);
    }
  }

  /** Expanding a plain document changes nothing. */
  lemma {:induction false} PlainStays(files: Files, j: Json, base: string, depth: nat)
    requires Plain(j)
    ensures Expand(files, j, base, depth) == Done(j)
    decreases j
  {
    match j
    case Obj(fields) =>
      var outs := OwnFields(files, j, base, depth);
      FieldsDone(outs);
      forall key | key in fields
        ensures outs[key] == Done(fields[key])
      {
        PlainStays(files, fields[key], base, depth);
      }
      assert AllFields(outs).value.fields == fields;
    case Arr(items) =>
      var outs := OwnItems(files, j, base, depth);
      ItemsDone(outs);
      forall i | 0 <= i < |items|
        ensures outs[i] == Done(items[i])
      {
        PlainStays(files, items[i], base, depth);
      }
      assert AllItems(outs).value.items == items;
    case _ =>
  }

  lemma {:induction false} IndexedPlain(items: seq<Json>, key: string)
    requires forall i | 0 <= i < |items| :: Plain(items[i])
    requires key in Indexed(items)
    ensures Plain(Indexed(items)[key])
  {
    if items != [] && key != Decimal(|items| - 1) {
      IndexedPlain(items[..|items| - 1], key);
    }
  }

  /** An included array counts as an object whose keys are its indices in decimal. */
  lemma {:induction false} ArrayKeysAreIndices(items: seq<Json>)
    ensures forall key :: key in Indexed(items) ==> 0 <= ValueOf(key) < |items| && key == Decimal(ValueOf(key))
    ensures forall i: nat :: i < |items| ==> Decimal(i) in Indexed(items) && Indexed(items)[Decimal(i)] == items[i]
  {
    if items != [] {
      var less, last: nat := items[..|items| - 1], |items| - 1;
      ArrayKeysAreIndices(less);
      DecimalReadsBack(last);
      forall i: nat | i < |items|
        ensures Decimal(i) in Indexed(items) && Indexed(items)[Decimal(i)] == items[i]
      {
        DecimalReadsBack(i);
        assert i < last ==> less[i] == items[i];
      }
    }
  }

  lemma ItemsPlain(j: Json, key: string)
    requires Plain(j) && key in Items(j)
    ensures Plain(Items(j)[key])
  {
    if j.Arr? {
      IndexedPlain(j.items, key);
    }
  }

  lemma {:induction false} LoadIsPlain(files: Files, name: string, depth: nat)
    requires Load(files, name, depth).Done?
    ensures Plain(Load(files, name, depth).value)
    decreases depth, 0
  {
    ExpandIsPlain(files, files[name].root, name, depth - 1);
  }

  /** However includes are nested, an expanded document is plain. */
  lemma {:induction false} ExpandIsPlain(files: Files, node: Json, base: string, depth: nat)
    requires Expand(files, node, base, depth).Done?
    ensures Plain(Expand(files, node, base, depth).value)
    decreases depth, 1, node
  {
    match node
    case Obj(fields) =>
      if INCLUDE in fields {
        MergedIsPlain(files, node, base, depth);
      } else {
        var outs := OwnFields(files, node, base, depth);
        FieldsDone(outs);
        forall key | key in fields
          ensures outs[key].Done? && Plain(outs[key].value)
        {
          assert key in outs && outs[key].Done?;
          ExpandIsPlain(files, fields[key], base, depth);
        }
      }
    case Arr(items) =>
      var outs := OwnItems(files, node, base, depth);
      ItemsDone(outs);
      forall i | 0 <= i < |items|
        ensures outs[i].Done? && Plain(outs[i].value)
      {
        assert outs[i].Done?;
        ExpandIsPlain(files, items[i], base, depth);
      }
    case _ =>
  }

  lemma {:induction false} MergedIsPlain(files: Files, node: Json, base: string, depth: nat)
    requires node.Obj? && INCLUDE in node.fields && Expand(files, node, base, depth).Done?
    ensures Plain(Expand(files, node, base, depth).value)
    decreases depth, 1, node, 0
  {
    var included := Load(files, Target(node.fields, base), depth).value;
    var outs := MergedFields(files, node, included, base, depth);
    FieldsDone(outs);
    LoadIsPlain(files, Target(node.fields, base), depth);
    forall key | key in outs
      ensures outs[key].Done? && Plain(outs[key].value)
    {
      if key in node.fields {
        ExpandIsPlain(files, node.fields[key], base, depth);
      } else {
        ItemsPlain(included, key);
        PlainStays(files, Items(included)[key], base, depth - 1);
      }
    }
  }

  /** So expanding twice is expanding once. */
  lemma ExpandIsIdempotent(files: Files, node: Json, base: string, depth: nat, base': string, depth': nat)
    requires Expand(files, node, base, depth).Done?
    ensures var r := Expand(files, node, base, depth); Expand(files, r.value, base', depth') == r
  {
    ExpandIsPlain(files, node, base, depth);
    PlainStays(files, Expand(files, node, base, depth).value, base', depth');
  }

  /** An object with an include ends up with its own entries, expanded, and for every other key the
      included file's entry as that file expands it; the include entry itself is gone. */
  lemma OwnEntriesWin(files: Files, fields: map<string, Json>, base: string, depth: nat)
    requires INCLUDE in fields && Expand(files, Obj(fields), base, depth).Done?
    ensures fields[INCLUDE].Str? && Load(files, Target(fields, base), depth).Done?
    ensures var items := Items(Load(files, Target(fields, base), depth).value);
            var r := Expand(files, Obj(fields), base, depth).value;
            && r.Obj?
            && r.fields.Keys == fields.Keys + items.Keys - {INCLUDE}
            && (forall key | key in fields && key != INCLUDE ::
                  key in r.fields && Expand(files, fields[key], base, depth) == Done(r.fields[key]))
            && (forall key | key in items && key !in fields :: key in r.fields && r.fields[key] == items[key])
  {
    var included := Load(files, Target(fields, base), depth).value;
    var outs := MergedFields(files, Obj(fields), included, base, depth);
    FieldsDone(outs);
    LoadIsPlain(files, Target(fields, base), depth);
    forall key | key in Items(included) && key !in fields
      ensures Expand(files, Items(included)[key], base, depth - 1) == Done(Items(included)[key])
    {
      ItemsPlain(included, key);
      PlainStays(files, Items(included)[key], base, depth - 1);
    }
  }

  /** What an included document adds, by its kind: an object its entries, an array its items under
      their indices, a text, number or truth value itself under the empty key, and null nothing. */
  lemma IncludedKinds(files: Files, fields: map<string, Json>, base: string, depth: nat)
    requires INCLUDE in fields && Expand(files, Obj(fields), base, depth).Done?
    ensures fields[INCLUDE].Str? && Load(files, Target(fields, base), depth).Done?
    ensures var loaded := Load(files, Target(fields, base), depth).value;
            var r := Expand(files, Obj(fields), base, depth).value;
            && r.Obj?
            && (loaded.Obj? ==>
                  && r.fields.Keys == fields.Keys + loaded.fields.Keys - {INCLUDE}
                  && forall key | key in loaded.fields && key !in fields :: key in r.fields && r.fields[key] == loaded.fields[key])
            && (loaded.Arr? ==>
                  && (forall key :: key in r.fields && key !in fields ==> 0 <= ValueOf(key) < |loaded.items| && key == Decimal(ValueOf(key)))
                  && forall i: nat :: i < |loaded.items| && Decimal(i) !in fields ==>
                       Decimal(i) in r.fields && r.fields[Decimal(i)] == loaded.items[i])
            && (loaded.Str? || loaded.Num? || loaded.Bool? ==>
                  && r.fields.Keys == fields.Keys + {""} - {INCLUDE}
                  && ("" !in fields ==> "" in r.fields && r.fields[""] == loaded))
            && (loaded.Null? ==> r.fields.Keys == fields.Keys - {INCLUDE})
  {
    hide Expand, Load, Indexed, Decimal, ValueOf;
    OwnEntriesWin(files, fields, base, depth);
    var loaded := Load(files, Target(fields, base), depth).value;
    if loaded.Arr? {
      ArrayKeysAreIndices(loaded.items);
    }
  }

  // ---- termination ----

  /** Every include in `node`, at any depth, names a file ranked below `bound`. */
  ghost predicate IncludesBelow(node: Json, base: string, rank: string -> nat, bound: nat) {
    match node
    case Obj(fields) =>
      && (INCLUDE in fields && fields[INCLUDE].Str? ==> rank(Target(fields, base)) < bound)
      && (forall key | key in fields :: IncludesBelow(fields[key], base, rank, bound))
    case Arr(items) => forall i | 0 <= i < |items| :: IncludesBelow(items[i], base, rank, bound)
    case _ => true
  }

  /** The include graph has no cycle: files include only files of lower rank. */
  ghost predicate Acyclic(files: Files, rank: string -> nat) {
    forall name | name in files && files[name].Parsed? :: IncludesBelow(files[name].root, name, rank, rank(name))
  }

  lemma {:induction false} LoadEnds(files: Files, name: string, rank: string -> nat, depth: nat)
    requires Acyclic(files, rank) && rank(name) < depth
    ensures !Load(files, name, depth).TooDeep?
    decreases depth, 0
  {
    if name in files && files[name].Parsed? {
      WiderBound(files[name].root, name, rank, rank(name), depth - 1);
      ExpandEnds(files, files[name].root, name, rank, depth - 1);
    }
  }

  lemma {:induction false} WiderBound(node: Json, base: string, rank: string -> nat, bound: nat, wider: nat)
    requires IncludesBelow(node, base, rank, bound) && bound <= wider
    ensures IncludesBelow(node, base, rank, wider)
  {
    match node
    case Obj(fields) =>
      forall key | key in fields
        ensures IncludesBelow(fields[key], base, rank, wider)
      {
        WiderBound(fields[key], base, rank, bound, wider);
      }
    case Arr(items) =>
      forall i | 0 <= i < |items|
        ensures IncludesBelow(items[i], base, rank, wider)
      {
        WiderBound(items[i], base, rank, bound, wider);
      }
    case _ =>
  }

  /** On an acyclic include graph, expansion ends within as many nested loads as the ranks say. */
  lemma {:induction false} ExpandEnds(files: Files, node: Json, base: string, rank: string -> nat, depth: nat)
    requires Acyclic(files, rank) && IncludesBelow(node, base, rank, depth)
    ensures !Expand(files, node, base, depth).TooDeep?
    decreases depth, 1, node
  {
    hide Acyclic;
    match node
    case Obj(fields) =>
      if INCLUDE !in fields {
        var outs := OwnFields(files, node, base, depth);
        FieldsDone(outs);
        forall key | key in fields
          ensures !outs[key].TooDeep?
        {
          ExpandEnds(files, fields[key], base, rank, depth);
        }
      } else if fields[INCLUDE].Str? {
        MergedEnds(files, node, base, rank, depth);
      }
    case Arr(items) =>
      var outs := OwnItems(files, node, base, depth);
      ItemsDone(outs);
      forall i | 0 <= i < |items|
        ensures !outs[i].TooDeep?
      {
        ExpandEnds(files, items[i], base, rank, depth);
      }
    case _ =>
  }

  lemma {:induction false} MergedEnds(files: Files, node: Json, base: string, rank: string -> nat, depth: nat)
    requires Acyclic(files, rank) && IncludesBelow(node, base, rank, depth)
    requires node.Obj? && INCLUDE in node.fields && node.fields[INCLUDE].Str?
    ensures !Expand(files, node, base, depth).TooDeep?
    decreases depth, 1, node, 0
  {
    hide Acyclic;
    var target := Target(node.fields, base);
    LoadEnds(files, target, rank, depth);
    if Load(files, target, depth).Done? {
      var included := Load(files, target, depth).value;
      var outs := MergedFields(files, node, included, base, depth);
      FieldsDone(outs);
      LoadIsPlain(files, target, depth);
      forall key | key in outs
        ensures !outs[key].TooDeep?
      {
        if key in node.fields {
          ExpandEnds(files, node.fields[key], base, rank, depth);
        } else {
          ItemsPlain(included, key);
          PlainStays(files, Items(included)[key], base, depth - 1);
        }
      }
    }
  }

  /** The depth only decides whether expansion ends: allowing more never changes an outcome. */
  lemma {:induction false} LoadDeeper(files: Files, name: string, depth: nat, deeper: nat)
    requires depth <= deeper && !Load(files, name, depth).TooDeep?
    ensures Load(files, name, deeper) == Load(files, name, depth)
    decreases depth, 0
  {
    if name in files && files[name].Parsed? {
      ExpandDeeper(files, files[name].root, name, depth - 1, deeper - 1);
    }
  }

  lemma {:induction false} ExpandDeeper(files: Files, node: Json, base: string, depth: nat, deeper: nat)
    requires depth <= deeper && !Expand(files, node, base, depth).TooDeep?
    ensures Expand(files, node, base, deeper) == Expand(files, node, base, depth)
    decreases depth, 1, node
  {
    match node
    case Obj(fields) =>
      if INCLUDE !in fields {
        var outs, outs' := OwnFields(files, node, base, depth), OwnFields(files, node, base, deeper);
        forall key | key in outs && !outs[key].TooDeep?
          ensures outs'[key] == outs[key]
        {
          ExpandDeeper(files, fields[key], base, depth, deeper);
        }
        FieldsStable(outs, outs');
      } else if fields[INCLUDE].Str? {
        LoadDeeper(files, Target(fields, base), depth, deeper);
        if Load(files, Target(fields, base), depth).Done? {
          MergedDeeper(files, node, base, depth, deeper);
        }
      }
    case Arr(items) =>
      var outs, outs' := OwnItems(files, node, base, depth), OwnItems(files, node, base, deeper);
      forall i | 0 <= i < |outs| && !outs[i].TooDeep?
        ensures outs'[i] == outs[i]
      {
        ExpandDeeper(files, items[i], base, depth, deeper);
      }
      ItemsStable(outs, outs');
    case _ =>
  }

  lemma {:induction false} MergedDeeper(files: Files, node: Json, base: string, depth: nat, deeper: nat)
    requires node.Obj? && INCLUDE in node.fields && node.fields[INCLUDE].Str? && depth <= deeper
    requires Load(files, Target(node.fields, base), depth).Done? && !Expand(files, node, base, depth).TooDeep?
    ensures deeper > 0
    ensures var included := Load(files, Target(node.fields, base), depth).value;
            AllFields(MergedFields(files, node, included, base, deeper)) == AllFields(MergedFields(files, node, included, base, depth))
    decreases depth, 1, node, 0
  {
    hide AllFields;
    var included := Load(files, Target(node.fields, base), depth).value;
    var outs, outs' := MergedFields(files, node, included, base, depth), MergedFields(files, node, included, base, deeper);
    LoadIsPlain(files, Target(node.fields, base), depth);
    forall key | key in outs && !outs[key].TooDeep?
      ensures outs'[key] == outs[key]
    {
      if key in node.fields {
        ExpandDeeper(files, node.fields[key], base, depth, deeper);
      } else {
        ItemsPlain(included, key);
        PlainStays(files, Items(included)[key], base, depth - 1);
        PlainStays(files, Items(included)[key], base, deeper - 1);
      }
    }
    FieldsStable(outs, outs');
  }

  /** Root includes that lead from file to file for ever: each file of `loop` includes, at its root,
      a file of `loop`. */
  ghost predicate RootsIncludeWithin(files: Files, loop: set<string>) {
    forall name | name in loop ::
      && name in files && files[name].Parsed? && files[name].root.Obj?
      && INCLUDE in files[name].root.fields && files[name].root.fields[INCLUDE].Str?
      && Target(files[name].root.fields, name) in loop
  }

  lemma RootIncludeTooDeep(files: Files, name: string, depth: nat)
    requires name in files && files[name].Parsed? && files[name].root.Obj? && INCLUDE in files[name].root.fields
    requires files[name].root.fields[INCLUDE].Str?
    requires depth > 0 ==> Load(files, Target(files[name].root.fields, name), depth - 1).TooDeep?
    ensures Load(files, name, depth).TooDeep?
  {
    hide AllFields, MergedFields, OwnFields, OwnItems, AllItems;
  }

  /** No file of such a loop, of one file or more, is ever finished. */
  lemma {:induction false} RootCycleNeverEnds(files: Files, loop: set<string>, name: string, depth: nat)
    requires RootsIncludeWithin(files, loop) && name in loop
    ensures Load(files, name, depth).TooDeep?
    decreases depth
  {
    hide Load;
    if depth > 0 {
      RootCycleNeverEnds(files, loop, Target(files[name].root.fields, name), depth - 1);
    }
    RootIncludeTooDeep(files, name, depth);
  }

  // ---- the expansion as it runs ----

  /** Reads a file and expands it. */
  method LoadAndInclude(files: Files, name: string, depth: nat) returns (r: Outcome<Json>)
    ensures r == Load(files, name, depth)
    decreases depth, 0
  {
    if name !in files || files[name].Malformed? {
      return Throws;
    }
    if depth == 0 {
      return TooDeep;
    }
    r := ProcessIncludes(files, files[name].root, name, depth - 1);
  }

  /** Adds the entries of `included` that `fields` does not have, key by key, and drops the
      include entry. */
  method Merge(fields: map<string, Json>, included: Json) returns (merged: map<string, Json>)
    ensures merged.Keys == Items(included).Keys + fields.Keys - {INCLUDE}
    ensures forall key | key in merged :: merged[key] == if key in fields then fields[key] else Items(included)[key]
  {
    var items := Items(included);
    merged := fields;
    var todo := items.Keys;
    while todo != {}
      invariant todo <= items.Keys
      invariant merged.Keys == fields.Keys + (items.Keys - todo)
      invariant forall key | key in merged :: merged[key] == if key in fields then fields[key] else items[key]
    {
      var key :| key in todo;
      todo := todo - {key};
      if key !in merged {
        merged := merged[key := items[key]];
      }
    }
    merged := merged - {INCLUDE};
  }

  /** Processes a node and everything below it; the first failure ends it. */
  method ProcessIncludes(files: Files, node: Json, base: string, depth: nat) returns (r: Outcome<Json>)
    ensures r == Expand(files, node, base, depth)
    decreases depth, 1, node, 2
  {
    match node
    case Obj(fields) =>
      if INCLUDE in fields {
        if !fields[INCLUDE].Str? {
          return Throws;
        }
        var included := LoadAndInclude(files, Directory(base) + fields[INCLUDE].text, depth);
        if !included.Done? {
          return included;
        }
        var merged := Merge(fields, included.value);
        r := ProcessFields(files, node, merged, base, depth, MergedFields(files, node, included.value, base, depth));
      } else {
        r := ProcessFields(files, node, fields, base, depth, OwnFields(files, node, base, depth));
      }
    case Arr(items) =>
      r := ProcessItems(files, node, base, depth);
    case _ =>
      r := Done(node);
  }

  /** Replaces every entry of a merged object by its expansion, in the order of the keys. */
  method ProcessFields(files: Files, node: Json, start: map<string, Json>, base: string, depth: nat,
                       ghost outs: map<string, Outcome<Json>>) returns (r: Outcome<Json>)
    requires node.Obj? && start.Keys == outs.Keys
    requires forall key | key in start && key in node.fields :: start[key] == node.fields[key]
    requires forall key | key in start && key !in node.fields :: depth > 0
    requires forall key | key in start :: outs[key] == Expand(files, start[key], base, if key in node.fields then depth else depth - 1)
    ensures r == AllFields(outs)
    decreases depth, 1, node, 1
  {
    hide Expand, AllFields, Less;
    var merged := start;
    FieldsDone(outs);
    var todo := merged.Keys;
    while todo != {}
      invariant todo <= start.Keys && merged.Keys == start.Keys
      invariant forall key | key in todo :: merged[key] == start[key]
      invariant forall key | key in start && key !in todo :: outs[key] == Done(merged[key])
    {
      ghost var least := LeastOf(todo);
      assert IsLeast(todo, least);
      var key :| key in todo && forall other | other in todo && other != key :: Less(key, other);
      todo := todo - {key};
      var child := ProcessIncludes(files, merged[key], base, if key in node.fields then depth else depth - 1);
      if !child.Done? {
        FieldsFail(outs, key);
        return child;
      }
      merged := merged[key := child.value];
    }
    r := Done(Obj(merged));
    assert AllFields(outs).value.fields == merged;
  }

  method ProcessItems(files: Files, node: Json, base: string, depth: nat) returns (r: Outcome<Json>)
    requires node.Arr?
    ensures r == AllItems(OwnItems(files, node, base, depth))
    decreases depth, 1, node, 1
  {
    hide Expand, AllItems;
    ghost var outs := OwnItems(files, node, base, depth);
    ItemsDone(outs);
    var processed := node.items;
    var i := 0;
    while i < |node.items|
      invariant i <= |node.items| == |processed|
      invariant forall j | i <= j < |node.items| :: processed[j] == node.items[j]
      invariant forall j | 0 <= j < i :: outs[j] == Done(processed[j])
    {
      var child := ProcessIncludes(files, node.items[i], base, depth);
      if !child.Done? {
        ItemsFail(outs, i);
        return child;
      }
      processed := processed[i := child.value];
      i := i + 1;
    }
    r := Done(Arr(processed));
    assert AllItems(outs).value.items == processed;
  }
}
