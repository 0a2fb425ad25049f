/** The proxy-core configuration (config.json) as a JSON tree, and what Python does
    when the scanner evaluates and assigns through a chain of subscripts on it:
    `config["outbounds"][0]["settings"]["vnext"][0]["address"] = str(ip)`. */
module JsonDoc {
  import opened Wrappers

  datatype Json =
    | JNull
    | JBool(b: bool)
    | JNum(n: int)
    | JStr(s: string)
    | JArr(items: seq<Json>)
    | JObj(fields: map<string, Json>)

  /** One subscript: `[name]` with a string key, or `[i]` with an integer index. */
  datatype Step = Key(name: string) | Index(i: nat)

  /** What evaluating a subscript yields: a value, a KeyError or IndexError (the two
      exceptions the scanner catches), or a TypeError (which it does not catch). */
  datatype Outcome = Ok(value: Json) | KeyOrIndexError | TypeError

  /** Python's `node[step]` on a decoded JSON value. A JSON object has only string
      keys, so an integer subscript on it is a KeyError; indexing a string yields a
      one-character string; subscripting a number, a boolean or null is a TypeError. */
  function StepInto(node: Json, step: Step): Outcome
  {
    match step
    case Key(k) =>
      if node.JObj? then (if k in node.fields then Ok(node.fields[k]) else KeyOrIndexError)
      else TypeError
    case Index(i) =>
      match node
      case JArr(xs) => if i < |xs| then Ok(xs[i]) else KeyOrIndexError
      case JStr(s) => if i < |s| then Ok(JStr([s[i]])) else KeyOrIndexError
      case JObj(_) => KeyOrIndexError
      case _ => TypeError
  }

  /** Evaluating `node[path[0]][path[1]]...` left to right; the first failing subscript decides. */
  function Descend(node: Json, path: seq<Step>): Outcome
    decreases |path|
  {
    if path == [] then Ok(node)
    else match StepInto(node, path[0])
      case Ok(child) => Descend(child, path[1..])
      case KeyOrIndexError => KeyOrIndexError
      case TypeError => TypeError
  }

  /** Python's `node[k] = v`: a dict gains or overwrites the key; anything else refuses a string subscript. */
  function SetItem(node: Json, k: string, v: Json): Outcome
  {
    if node.JObj? then Ok(JObj(node.fields[k := v])) else TypeError
  }

  /** The container `node` with the child under `step` replaced by `child`. */
  function Replace(node: Json, step: Step, child: Json): Json
    requires StepInto(node, step).Ok? && !node.JStr?
  {
    match node
    case JObj(f) => JObj(f[step.name := child])
    case JArr(xs) => JArr(xs[step.i := child])
  }

  /** `node[path[0]]...[path[n-1]][k] = v` on the tree, giving the whole updated tree.
      Python mutates the dictionaries in place; as nothing else holds the freshly
      loaded document, rebuilding the spine is the same observable result. */
  function Put(node: Json, path: seq<Step>, k: string, v: Json): (r: Outcome)
    ensures r.Ok? ==> node.JObj? || node.JArr?
    // `node` in the measure keeps the verifier from unrolling the walk along the
    // fixed address path wherever the rewrite appears
    decreases |path|, node
  {
    if path == [] then SetItem(node, k, v)
    else match StepInto(node, path[0])
      case Ok(child) =>
        (match Put(child, path[1..], k, v)
         case Ok(updated) => Ok(Replace(node, path[0], updated))
         case KeyOrIndexError => KeyOrIndexError
         case TypeError => TypeError)
      case KeyOrIndexError => KeyOrIndexError
      case TypeError => TypeError
  }

  /** The node at `path` when walking only through objects (by key) and arrays (by index):
      the JSON-pointer view of the document, independent of Python's subscript rules. */
  function At(node: Json, path: seq<Step>): Option<Json>
    decreases |path|
  {
    if path == [] then Some(node)
    else match (node, path[0])
      case (JObj(f), Key(k)) => if k in f then At(f[k], path[1..]) else None
      case (JArr(xs), Index(i)) => if i < |xs| then At(xs[i], path[1..]) else None
      case _ => None
  }

  /** `step` names nothing in `node` although `node` can be subscripted that way:
      a key the object lacks (an integer is never a key of a JSON object), or an
      index past the end of an array or string. */
  predicate Absent(node: Json, step: Step)
  {
    match step
    case Key(k) => node.JObj? && k !in node.fields
    case Index(i) =>
      node.JObj? || (node.JArr? && i >= |node.items|) || (node.JStr? && i >= |node.s|)
  }

  /** Somewhere along `path`, reached through objects and arrays, a key is missing or
      an index is out of range. */
  predicate Missing(node: Json, path: seq<Step>)
    decreases |path|
  {
    path != [] &&
    (Absent(node, path[0]) ||
     (At(node, path[..1]).Some? && Missing(At(node, path[..1]).value, path[1..])))
  }

  /** No two integer subscripts follow each other (so a string is never indexed twice). */
  predicate NoAdjacentIndex(path: seq<Step>)
    decreases |path|
  {
    |path| < 2 || ((path[0].Key? || path[1].Key?) && NoAdjacentIndex(path[1..]))
  }

  // ---------------------------------------------------------------------------
  // Properties of the subscript assignment

  /** Python evaluates the target container first and then assigns into it: the
      assignment succeeds exactly when the container expression yields a dict, and
      fails with KeyError/IndexError exactly when evaluating the container does. */
  lemma {:induction false} PutAgreesWithDescend(node: Json, path: seq<Step>, k: string, v: Json)
    ensures Put(node, path, k, v).Ok? <==> Descend(node, path).Ok? && Descend(node, path).value.JObj?
    ensures Put(node, path, k, v).KeyOrIndexError? <==> Descend(node, path).KeyOrIndexError?
    decreases |path|
  {
    if path != [] {
      match StepInto(node, path[0])
      case Ok(child) => PutAgreesWithDescend(child, path[1..], k, v);
      case KeyOrIndexError =>
      case TypeError =>
    }
  }

  /** Whether the assignment succeeds, and which exception it raises, does not depend on the value assigned. */
  lemma PutOutcomeIgnoresValue(node: Json, path: seq<Step>, k: string, v1: Json, v2: Json)
    ensures Put(node, path, k, v1).Ok? == Put(node, path, k, v2).Ok?
    ensures Put(node, path, k, v1).KeyOrIndexError? == Put(node, path, k, v2).KeyOrIndexError?
  {
    PutAgreesWithDescend(node, path, k, v1);
    PutAgreesWithDescend(node, path, k, v2);
  }

  /** A container expression that evaluates to a dict only went through objects and
      arrays (indexing a string only ever yields strings), so it agrees with `At`. */
  lemma {:induction false} DescendToObject(node: Json, path: seq<Step>)
    ensures (Descend(node, path).Ok? && Descend(node, path).value.JObj?)
        <==> (At(node, path).Some? && At(node, path).value.JObj?)
    ensures At(node, path).Some? ==> Descend(node, path) == Ok(At(node, path).value)
    decreases |path|
  {
    if path != [] {
      match StepInto(node, path[0])
      case Ok(child) =>
        DescendToObject(child, path[1..]);
        if node.JStr? {
          StringsStayStrings(child, path[1..]);
        }
      case KeyOrIndexError =>
      case TypeError =>
    }
  }

  lemma {:induction false} StringsStayStrings(node: Json, path: seq<Step>)
    requires node.JStr?
    ensures Descend(node, path).Ok? ==> Descend(node, path).value.JStr?
    decreases |path|
  {
    if path != [] {
      match StepInto(node, path[0])
      case Ok(child) => StringsStayStrings(child, path[1..]);
      case KeyOrIndexError =>
      case TypeError =>
    }
  }

  /** After a successful assignment the value sits at the target position. */
  lemma {:induction false} PutWrites(node: Json, path: seq<Step>, k: string, v: Json)
    requires Put(node, path, k, v).Ok?
    ensures At(Put(node, path, k, v).value, path + [Key(k)]) == Some(v)
    decreases |path|
  {
    var target := path + [Key(k)];
    if path == [] {
      assert target[1..] == [];
    } else {
      var child := StepInto(node, path[0]).value;
      PutWrites(child, path[1..], k, v);
      assert target[0] == path[0];
      assert target[1..] == path[1..] + [Key(k)];
    }
  }

  /** Subscripting a container after one child was replaced. */
  lemma StepIntoReplace(node: Json, s: Step, child: Json, t: Step)
    requires StepInto(node, s).Ok? && !node.JStr?
    ensures StepInto(Replace(node, s, child), t) == if t == s then Ok(child) else StepInto(node, t)
  {
  }

  /** A successful assignment changes nothing at any position that neither contains
      the target nor lies inside it. */
  lemma {:induction false} PutFrame(node: Json, path: seq<Step>, k: string, v: Json, q: seq<Step>)
    requires Put(node, path, k, v).Ok?
    requires !(q <= path + [Key(k)]) && !(path + [Key(k)] <= q)
    ensures At(Put(node, path, k, v).value, q) == At(node, q)
    decreases |path|
  {
    var updated := Put(node, path, k, v).value;
    assert q != [];
    if path == [] {
      var f := node.fields;
      assert q[..1] == [q[0]];
      assert q[0] != Key(k);
      assert updated == JObj(f[k := v]);
      match q[0]
      case Key(s) =>
        assert s != k;
        assert (s in f[k := v]) == (s in f);
        if s in f { assert f[k := v][s] == f[s]; }
      case Index(_) =>
    } else {
      var child := StepInto(node, path[0]).value;
      var updatedChild := Put(child, path[1..], k, v).value;
      assert updated == Replace(node, path[0], updatedChild);
      StepIntoReplace(node, path[0], updatedChild, q[0]);
      if q[0] == path[0] {
        var target := path + [Key(k)];
        assert target[1..] == path[1..] + [Key(k)];
        PrefixCons(q[0], q[1..], target[1..]);
        PrefixCons(q[0], target[1..], q[1..]);
        assert q == [q[0]] + q[1..];
        assert target == [q[0]] + target[1..];
        PutFrame(child, path[1..], k, v, q[1..]);
        AtStep(updated, q, updatedChild);
        AtStep(node, q, child);
      } else {
        AtFirstStep(updated, node, q);
      }
    }
  }

  lemma PrefixCons(a: Step, x: seq<Step>, y: seq<Step>)
    ensures ([a] + x <= [a] + y) == (x <= y)
  {
    assert ([a] + x)[1..] == x;
    if |x| <= |y| {
      assert ([a] + y)[..|x| + 1] == [a] + y[..|x|];
    }
  }

  /** A one-step walk that finds something went through an object or an array. */
  lemma AtOneStep(node: Json, s: Step)
    ensures At(node, [s]).Some? ==> !node.JStr? && StepInto(node, s) == Ok(At(node, [s]).value)
  {
    assert [s][1..] == [];
  }

  /** `At` goes one level down through the first step. */
  lemma AtStep(node: Json, q: seq<Step>, child: Json)
    requires q != [] && !node.JStr? && StepInto(node, q[0]) == Ok(child)
    ensures At(node, q) == At(child, q[1..])
  {
  }

  /** Two nodes that answer the first subscript of `q` alike are alike along `q`. */
  lemma AtFirstStep(a: Json, b: Json, q: seq<Step>)
    requires q != [] && !a.JStr? && !b.JStr? && StepInto(a, q[0]) == StepInto(b, q[0])
    ensures At(a, q) == At(b, q)
  {
  }

  /** A missing key or an out-of-range index on the path makes the assignment fail
      with KeyError/IndexError. */
  lemma {:induction false} MissingRaisesKeyOrIndexError(node: Json, path: seq<Step>, k: string, v: Json)
    requires Missing(node, path)
    ensures Put(node, path, k, v) == KeyOrIndexError
    decreases |path|
  {
    if !Absent(node, path[0]) {
      var child := At(node, path[..1]).value;
      assert path[..1] == [path[0]];
      AtOneStep(node, path[0]);
      assert StepInto(node, path[0]) == Ok(child);
      MissingRaisesKeyOrIndexError(child, path[1..], k, v);
    }
  }

  /** Conversely, on a path where no two integer subscripts follow each other, a
      KeyError/IndexError can only come from a missing key or an out-of-range index. */
  lemma {:induction false} KeyOrIndexErrorMeansMissing(node: Json, path: seq<Step>, k: string, v: Json)
    requires NoAdjacentIndex(path)
    requires Put(node, path, k, v) == KeyOrIndexError
    ensures Missing(node, path)
    decreases |path|
  {
    assert path != [];
    match StepInto(node, path[0])
    case Ok(child) =>
      if node.JStr? {
        CharacterRefusesAssignment(child, path[1..], k, v);
        assert false;
      }
      assert path[..1][0] == path[0] && path[..1][1..] == [];
      assert At(node, path[..1]) == Some(child);
      KeyOrIndexErrorMeansMissing(child, path[1..], k, v);
    case KeyOrIndexError =>
    case TypeError =>
  }

  /** A one-character string taken out of a string can neither be subscripted with a
      key nor assigned into. */
  lemma CharacterRefusesAssignment(c: Json, rest: seq<Step>, k: string, v: Json)
    requires c.JStr? && (rest == [] || rest[0].Key?)
    ensures Put(c, rest, k, v) == TypeError
  {
  }

  // ---------------------------------------------------------------------------
  // The one field the scanner rewrites

  /** The container of the rewritten field: `outbounds[0].settings.vnext[0]`. */
  const AddressParent: seq<Step> := [Key("outbounds"), Index(0), Key("settings"), Key("vnext"), Index(0)]
  const AddressKey: string := "address"
  const AddressPath: seq<Step> := AddressParent + [Key(AddressKey)]

  /** `config["outbounds"][0]["settings"]["vnext"][0]["address"] = ip` */
  function RewriteAddress(config: Json, ip: string): Outcome
  {
    Put(config, AddressParent, AddressKey, JStr(ip))
  }

  /** On success the address is the candidate and nothing outside that field changed;
      the rewrite raises KeyError/IndexError exactly when a key on the way is missing
      or a list on the way is empty (the final "address" key itself is created when
      absent); it succeeds exactly when `vnext[0]` is reached through objects and
      arrays and is an object; every other shape raises TypeError. */
  lemma RewriteAddressSpec(config: Json, ip: string)
    ensures var r := RewriteAddress(config, ip);
      && (r.Ok? ==> At(r.value, AddressPath) == Some(JStr(ip)))
      && (r.Ok? ==> forall q :: !(q <= AddressPath) && !(AddressPath <= q) ==> At(r.value, q) == At(config, q))
      && (r.KeyOrIndexError? <==> Missing(config, AddressParent))
      && (r.Ok? <==> At(config, AddressParent).Some? && At(config, AddressParent).value.JObj?)
  {
    var r := RewriteAddress(config, ip);
    if r.Ok? {
      PutWrites(config, AddressParent, AddressKey, JStr(ip));
      forall q | !(q <= AddressPath) && !(AddressPath <= q)
        ensures At(r.value, q) == At(config, q)
      {
        PutFrame(config, AddressParent, AddressKey, JStr(ip), q);
      }
    }
    if Missing(config, AddressParent) {
      MissingRaisesKeyOrIndexError(config, AddressParent, AddressKey, JStr(ip));
    }
    if r.KeyOrIndexError? {
      assert NoAdjacentIndex(AddressParent);
      KeyOrIndexErrorMeansMissing(config, AddressParent, AddressKey, JStr(ip));
    }
    PutAgreesWithDescend(config, AddressParent, AddressKey, JStr(ip));
    DescendToObject(config, AddressParent);
  }

  /** Whether the rewrite succeeds, and how it fails, does not depend on the candidate. */
  lemma RewriteOutcomeIgnoresCandidate(config: Json, ip1: string, ip2: string)
    ensures RewriteAddress(config, ip1).Ok? == RewriteAddress(config, ip2).Ok?
    ensures RewriteAddress(config, ip1).KeyOrIndexError? == RewriteAddress(config, ip2).KeyOrIndexError?
  {
    PutOutcomeIgnoresValue(config, AddressParent, AddressKey, JStr(ip1), JStr(ip2));
  }
}
