/** The request sanitizer of internal/llmproxy/proxy.go, on JSON value trees.  Objects keep
    their members in document order.  Of the raw text one trait matters and is kept: whether
    an array was written with white space between its brackets. */
module Sanitizer {
  import opened Options
  import opened Text

  datatype Json =
    | Null
    | Bool(b: bool)
    | Num(n: real)
    | Str(s: string)
    | Arr(items: seq<Json>, spaced: bool)
    | Obj(members: seq<Member>)

  datatype Member = Member(key: string, value: Json)

  /** A top-level object as Go decodes it: one value per key. */
  type Fields = map<string, Json>

  const MAX_TOKENS: int := 4500
  const MAX_TOOLS: nat := 16

  const ALLOWED: set<string> :=
    {"model", "input", "stream", "thinking", "text", "temperature", "max_output_tokens"}

  datatype Error = InvalidBody | ModelNotAllowed | MissingInput

  datatype Result = Ok(out: Fields, model: string) | Err(error: Error)

  /** What json.Marshal does to a raw value: white space goes, the value stays. */
  function Compact(j: Json): Json
    decreases j
  {
    match j
    case Arr(items, _) => Arr(CompactAll(items), false)
    case Obj(members) => Obj(CompactMembers(members))
    case _ => j
  }

  function CompactAll(items: seq<Json>): (r: seq<Json>)
    ensures |r| == |items| && forall i :: 0 <= i < |items| ==> r[i] == Compact(items[i])
    decreases items
  {
    if items == [] then [] else [Compact(items[0])] + CompactAll(items[1..])
  }

  function CompactMembers(members: seq<Member>): (r: seq<Member>)
    ensures |r| == |members|
    ensures forall i :: 0 <= i < |members| ==> r[i] == Member(members[i].key, Compact(members[i].value))
    decreases members
  {
    if members == [] then [] else [Member(members[0].key, Compact(members[0].value))] + CompactMembers(members[1..])
  }

  lemma {:induction false} CompactIdempotent(j: Json)
    ensures Compact(Compact(j)) == Compact(j)
    decreases j
  {
    match j
    case Arr(items, _) =>
      forall i | 0 <= i < |items|
        ensures Compact(Compact(items[i])) == Compact(items[i])
      {
        CompactIdempotent(items[i]);
      }
      assert CompactAll(CompactAll(items)) == CompactAll(items);
    case Obj(members) =>
      forall i | 0 <= i < |members|
        ensures Compact(Compact(members[i].value)) == Compact(members[i].value)
      {
        CompactIdempotent(members[i].value);
      }
      assert CompactMembers(CompactMembers(members)) == CompactMembers(members);
    case _ =>
  }

  /** The same value, written with or without blanks. */
  predicate SameValue(a: Json, b: Json)
    decreases a
  {
    match a
    case Null => b == Null
    case Bool(x) => b == Bool(x)
    case Num(n) => b == Num(n)
    case Str(s) => b == Str(s)
    case Arr(items, _) =>
      b.Arr? && |b.items| == |items| && forall i :: 0 <= i < |items| ==> SameValue(items[i], b.items[i])
    case Obj(members) =>
      && b.Obj? && |b.members| == |members|
      && forall i :: 0 <= i < |members| ==>
           b.members[i].key == members[i].key && SameValue(members[i].value, b.members[i].value)
  }

  /** No array in it is written with blanks. */
  predicate NoBlanks(j: Json)
    decreases j
  {
    match j
    case Arr(items, spaced) => !spaced && forall i :: 0 <= i < |items| ==> NoBlanks(items[i])
    case Obj(members) => forall i :: 0 <= i < |members| ==> NoBlanks(members[i].value)
    case _ => true
  }

  /** Compaction takes away blanks and nothing else. */
  lemma {:induction false} CompactKeepsValue(j: Json)
    ensures SameValue(j, Compact(j)) && NoBlanks(Compact(j))
    decreases j
  {
    match j
    case Arr(items, _) =>
      forall i | 0 <= i < |items|
        ensures SameValue(items[i], Compact(items[i])) && NoBlanks(Compact(items[i]))
      {
        CompactKeepsValue(items[i]);
      }
    case Obj(members) =>
      forall i | 0 <= i < |members|
        ensures SameValue(members[i].value, Compact(members[i].value)) && NoBlanks(Compact(members[i].value))
      {
        CompactKeepsValue(members[i].value);
      }
    case _ =>
  }

  // ---------------------------------------------------------------------------
  // Tools

  function LowerAscii(c: char): char {
    if 'A' <= c <= 'Z' then (c as int + 32) as char else c
  }

  /** encoding/json matches a struct field's name in any case. */
  predicate NamesType(key: string) {
    |key| == 4 && LowerAscii(key[0]) == 't' && LowerAscii(key[1]) == 'y'
    && LowerAscii(key[2]) == 'p' && LowerAscii(key[3]) == 'e'
  }

  /** Decoding members into a struct with one string field "type": later members win, null
      leaves the field alone, any other value is an error. */
  function TypeField(members: seq<Member>): Option<string> {
    if members == [] then Some("")
    else
      var last := members[|members| - 1];
      var sofar := TypeField(members[..|members| - 1]);
      if !NamesType(last.key) || last.value.Null? || sofar.None? then sofar
      else if last.value.Str? then Some(last.value.s)
      else None
  }

  lemma NamesTypeInAnyCase(key: string)
    ensures NamesType(key) <==> |key| == 4 && forall i :: 0 <= i < 4 ==> key[i] == "type"[i] || key[i] == "TYPE"[i]
  {
    if |key| == 4 && forall i :: 0 <= i < 4 ==> key[i] == "type"[i] || key[i] == "TYPE"[i] {
      assert key[0] == 't' || key[0] == 'T';
      assert key[1] == 'y' || key[1] == 'Y';
      assert key[2] == 'p' || key[2] == 'P';
      assert key[3] == 'e' || key[3] == 'E';
    }
  }

  /** The field is the last member of that name that is not null, and must be a string wherever
      it is given. */
  lemma {:induction false} TypeFieldIsLast(members: seq<Member>, k: nat)
    ensures TypeField(members) == None <==>
      (exists i :: 0 <= i < |members| && NamesType(members[i].key)
                   && !members[i].value.Null? && !members[i].value.Str?)
    ensures TypeField(members).Some? && k < |members| && NamesType(members[k].key) && members[k].value.Str?
            && (forall i :: k < i < |members| && NamesType(members[i].key) ==> members[i].value.Null?) ==>
      TypeField(members) == Some(members[k].value.s)
    ensures (forall i :: 0 <= i < |members| && NamesType(members[i].key) ==> members[i].value.Null?) ==>
      TypeField(members) == Some("")
  {
    if members != [] {
      var n := |members| - 1;
      var rest := members[..n];
      TypeFieldIsLast(rest, k);
      assert forall i :: 0 <= i < n ==> rest[i] == members[i];
      assert members[n] == members[|members| - 1];
      if TypeField(members) == None && TypeField(rest) == None {
        var i :| 0 <= i < |rest| && NamesType(rest[i].key) && !rest[i].value.Null? && !rest[i].value.Str?;
        assert members[i] == rest[i];
      }
      if i :| 0 <= i < n && NamesType(members[i].key) && !members[i].value.Null? && !members[i].value.Str? {
        assert rest[i] == members[i];
      }
    }
  }

  predicate IsFunctionTool(tool: Json) {
    tool.Obj? && TypeField(tool.members) == Some("function")
  }

  function FunctionTools(tools: seq<Json>): seq<Json> {
    if tools == [] then []
    else (if IsFunctionTool(tools[0]) then [tools[0]] else []) + FunctionTools(tools[1..])
  }

  /** Tool by tool, in order. */
  lemma {:induction false} FunctionToolsInOrder(a: seq<Json>, b: seq<Json>)
    ensures FunctionTools(a + b) == FunctionTools(a) + FunctionTools(b)
  {
    if a == [] {
      assert a + b == b;
    } else {
      var first := if IsFunctionTool(a[0]) then [a[0]] else [];
      assert (a + b)[1..] == a[1..] + b && (a + b)[0] == a[0];
      FunctionToolsInOrder(a[1..], b);
      assert first + (FunctionTools(a[1..]) + FunctionTools(b)) == first + FunctionTools(a[1..]) + FunctionTools(b);
    }
  }

  /** A function tool is kept, any other is passed over. */
  lemma OneTool(tool: Json)
    ensures FunctionTools([tool]) == if tool.Obj? && TypeField(tool.members) == Some("function") then [tool] else []
  {
    assert [tool][1..] == [];
  }

  method SanitizeTools(raw: Json) returns (kept: seq<Json>, ok: bool)
    ensures ok <==> raw.Null? || (raw.Arr? && |FunctionTools(raw.items)| <= MAX_TOOLS)
    ensures ok ==> kept == if raw.Null? then [] else FunctionTools(raw.items)
  {
    kept := [];
    if raw.Null? {
      return [], true;
    }
    if !raw.Arr? {
      return [], false;
    }
    var tools := raw.items;
    assert tools[0..] == tools;
    for i := 0 to |tools|
      invariant |kept| <= MAX_TOOLS
      invariant FunctionTools(tools) == kept + FunctionTools(tools[i..])
    {
      assert tools[i..][1..] == tools[i + 1..];
      if IsFunctionTool(tools[i]) {
        if |kept| == MAX_TOOLS {
          return [], false;
        }
        kept := kept + [tools[i]];
      }
    }
    return kept, true;
  }

  lemma {:induction false} TypeFieldOfCompact(members: seq<Member>)
    ensures TypeField(CompactMembers(members)) == TypeField(members)
  {
    if members != [] {
      var n := |members| - 1;
      TypeFieldOfCompact(members[..n]);
      assert CompactMembers(members)[..n] == CompactMembers(members[..n]);
    }
  }

  /** Keeping the function tools twice keeps the same tools. */
  lemma {:induction false} FunctionToolsStable(tools: seq<Json>)
    ensures FunctionTools(CompactAll(FunctionTools(tools))) == CompactAll(FunctionTools(tools))
  {
    if tools != [] {
      FunctionToolsStable(tools[1..]);
      var rest := FunctionTools(tools[1..]);
      if IsFunctionTool(tools[0]) {
        TypeFieldOfCompact(tools[0].members);
        var kept := FunctionTools(tools);
        assert kept == [tools[0]] + rest;
        var compacted := CompactAll(kept);
        assert compacted == [Compact(tools[0])] + CompactAll(rest);
        assert FunctionTools(compacted) == [Compact(tools[0])] + FunctionTools(CompactAll(rest));
      } else {
        assert FunctionTools(tools) == rest;
      }
    }
  }

  /** The kept tools are a subsequence, in order, and exactly the function tools. */
  lemma {:induction false} FunctionToolsAreExactly(tools: seq<Json>)
    ensures forall t :: t in FunctionTools(tools) <==> t in tools && IsFunctionTool(t)
    ensures multiset(FunctionTools(tools)) <= multiset(tools)
  {
    if tools != [] {
      assert tools == [tools[0]] + tools[1..];
      FunctionToolsAreExactly(tools[1..]);
    }
  }

  // ---------------------------------------------------------------------------
  // Sanitize

  /** Last member with a key wins. */
  function Decoded(members: seq<Member>): Fields {
    if members == [] then map[]
    else Decoded(members[..|members| - 1])[members[|members| - 1].key := members[|members| - 1].value]
  }

  /** A key is there when some member has it, with the value of the last one that does. */
  lemma {:induction false} DecodedIsLast(members: seq<Member>, k: nat, key: string)
    ensures key in Decoded(members) <==> exists i :: 0 <= i < |members| && members[i].key == key
    ensures k < |members| && members[k].key == key && (forall i :: k < i < |members| ==> members[i].key != key) ==>
      Decoded(members)[key] == members[k].value
  {
    if members != [] {
      var n := |members| - 1;
      DecodedIsLast(members[..n], k, key);
      assert members == members[..n] + [members[n]];
    }
  }

  /** isNullOrEmpty looks at the raw text, so an array with inner blanks is not empty to it. */
  predicate IsNullOrEmpty(j: Json) {
    j == Null || j == Str("") || j == Arr([], false)
  }

  function ModelName(fields: Fields): Option<string> {
    if "model" !in fields then None
    else match fields["model"]
      case Str(s) => Some(TrimSpace(s))
      case Null => Some("")
      case _ => None
  }

  function TokenLimit(fields: Fields): Option<int> {
    if "max_output_tokens" !in fields || fields["max_output_tokens"].Null? then Some(MAX_TOKENS)
    else match fields["max_output_tokens"]
      case Num(n) => Some(if 1.0 <= n < MAX_TOKENS as real then n.Floor else MAX_TOKENS)
      case _ => None
  }

  function KeptTools(fields: Fields): Option<seq<Json>> {
    if "tools" !in fields || fields["tools"].Null? then Some([])
    else match fields["tools"]
      case Arr(items, _) => if |FunctionTools(items)| <= MAX_TOOLS then Some(FunctionTools(items)) else None
      case _ => None
  }

  /** The forwarded object for an accepted request. */
  function Forwarded(fields: Fields, model: string, tools: seq<Json>, limit: int): Fields {
    var copied := map k | k in fields && k in ALLOWED :: Compact(fields[k]);
    var out := copied["model" := Str(model)];
    var out := if tools == [] then out else out["tools" := Arr(CompactAll(tools), false)];
    out["max_output_tokens" := Num(limit as real)]["store" := Bool(false)]
  }

  function SanitizeFields(models: set<string>, fields: Fields): Result {
    var model := ModelName(fields);
    if model.None? || model.value !in models then Err(ModelNotAllowed)
    else if "input" !in fields || IsNullOrEmpty(fields["input"]) then Err(MissingInput)
    else if KeptTools(fields).None? then Err(InvalidBody)
    else if TokenLimit(fields).None? then Err(InvalidBody)
    else Ok(Forwarded(fields, model.value, KeptTools(fields).value, TokenLimit(fields).value), model.value)
  }

  /** The allowlist New builds from the configured names. */
  function Allowlist(names: seq<string>): set<string> {
    set m | m in names && TrimSpace(m) != "" :: TrimSpace(m)
  }

  /** Its names are trimmed and non-empty. */
  lemma AllowlistIsTrimmed(names: seq<string>)
    ensures IsAllowlist(Allowlist(names))
    ensures forall m :: m in Allowlist(names) <==> m != "" && exists name :: name in names && TrimSpace(name) == m
  {
    forall m | m in names
      ensures TrimSpace(TrimSpace(m)) == TrimSpace(m)
    {
      TrimIdempotent(m);
    }
  }

  predicate IsAllowlist(models: set<string>) {
    forall m :: m in models ==> m != "" && TrimSpace(m) == m
  }

  lemma AllowlistAppends(names: seq<string>, name: string)
    ensures Allowlist(names + [name]) ==
            Allowlist(names) + (if TrimSpace(name) == "" then {} else {TrimSpace(name)})
  {
  }

  class Proxy {
    const models: set<string>

    constructor (names: seq<string>)
      ensures models == Allowlist(names) && IsAllowlist(models)
      ensures forall m :: m in models <==> m != "" && exists name :: name in names && TrimSpace(name) == m
    {
      var allowed := {};
      for i := 0 to |names|
        invariant allowed == Allowlist(names[..i])
      {
        AllowlistAppends(names[..i], names[i]);
        assert names[..i + 1] == names[..i] + [names[i]];
        if TrimSpace(names[i]) != "" {
          allowed := allowed + {TrimSpace(names[i])};
        }
      }
      assert names[..|names|] == names;
      AllowlistIsTrimmed(names);
      models := allowed;
    }

    /** `body` is the single JSON value of the request, None if it does not parse as one. */
    method Sanitize(body: Option<Json>) returns (res: Result)
      ensures res == if body.Some? && body.value.Obj? then SanitizeFields(models, Decoded(body.value.members))
                     else Err(InvalidBody)
    {
      if body.None? || !body.value.Obj? {
        return Err(InvalidBody);
      }
      var fields := Decoded(body.value.members);
      if "model" !in fields || !(fields["model"].Str? || fields["model"].Null?) {
        return Err(ModelNotAllowed);
      }
      var model := if fields["model"].Str? then TrimSpace(fields["model"].s) else "";
      if model !in models {
        return Err(ModelNotAllowed);
      }
      if "input" !in fields || IsNullOrEmpty(fields["input"]) {
        return Err(MissingInput);
      }
      res := Assemble(fields, model);
    }

    /** The outgoing object, for an allowed model. */
    method Assemble(fields: Fields, model: string) returns (res: Result)
      ensures res == if KeptTools(fields).None? || TokenLimit(fields).None? then Err(InvalidBody)
                     else Ok(Forwarded(fields, model, KeptTools(fields).value, TokenLimit(fields).value), model)
    {
      var out := CopyAllowed(fields);
      out := out["model" := Str(model)];
      if "tools" in fields {
        var kept, ok := SanitizeTools(fields["tools"]);
        if !ok {
          return Err(InvalidBody);
        }
        if |kept| > 0 {
          out := out["tools" := Arr(CompactAll(kept), false)];
        }
      }
      var limit := ClampTokens(fields);
      if limit.None? {
        return Err(InvalidBody);
      }
      out := out["max_output_tokens" := Num(limit.value as real)];
      out := out["store" := Bool(false)];
      return Ok(out, model);
    }

    method ClampTokens(fields: Fields) returns (limit: Option<int>)
      ensures limit == TokenLimit(fields)
      ensures limit.Some? ==> 1 <= limit.value <= MAX_TOKENS
      ensures "max_output_tokens" in fields && fields["max_output_tokens"].Num?
              && 1.0 <= fields["max_output_tokens"].n < 4500.0 ==>
        limit.Some? && limit.value as real <= fields["max_output_tokens"].n < limit.value as real + 1.0
    {
      var maxTokens := MAX_TOKENS;
      if "max_output_tokens" in fields && !fields["max_output_tokens"].Null? {
        if !fields["max_output_tokens"].Num? {
          return None;
        }
        var n := fields["max_output_tokens"].n;
        if 1.0 <= n && n < MAX_TOKENS as real {
          maxTokens := n.Floor;
        }
      }
      return Some(maxTokens);
    }

    method CopyAllowed(fields: Fields) returns (out: Fields)
      ensures out == map k | k in fields && k in ALLOWED :: Compact(fields[k])
    {
      out := map[];
      var todo := fields.Keys;
      while todo != {}
        invariant todo <= fields.Keys
        invariant out == map k | k in fields && k in ALLOWED && k !in todo :: Compact(fields[k])
        decreases todo
      {
        var k :| k in todo;
        if k in ALLOWED {
          out := out[k := Compact(fields[k])];
        }
        todo := todo - {k};
      }
    }
  }

  // ---------------------------------------------------------------------------
  // What comes out

  /** `sent` is the list of exactly the function tools, in order, at least one and at most 16. */
  predicate ForwardsTools(tools: seq<Json>, sent: Json) {
    0 < |FunctionTools(tools)| <= MAX_TOOLS && sent == Arr(CompactAll(FunctionTools(tools)), false)
  }

  /** Allowed keys only, store off, a whole token limit between 1 and the cap; the other allowed
      fields are passed on. */
  predicate WellShaped(fields: Fields, out: Fields) {
    && out.Keys <= ALLOWED + {"tools", "store"}
    && "store" in out && out["store"] == Bool(false)
    && "max_output_tokens" in out && out["max_output_tokens"].Num?
    && (var n := out["max_output_tokens"].n; n == n.Floor as real && 1 <= n.Floor <= MAX_TOKENS)
    && (forall k :: k in out && k !in {"model", "max_output_tokens", "tools", "store"} ==>
          k in fields && out[k] == Compact(fields[k]))
    && (forall k :: k in ALLOWED && k in fields ==> k in out)
  }

  lemma ForwardedIsWellShaped(fields: Fields, model: string, tools: seq<Json>, limit: int)
    requires 1 <= limit <= MAX_TOKENS && (tools != [] ==> "tools" in fields)
    ensures WellShaped(fields, Forwarded(fields, model, tools, limit))
  {
    var out := Forwarded(fields, model, tools, limit);
    FloorOfWhole(limit);
    assert out["max_output_tokens"] == Num(limit as real);
  }

  /** An accepted request is forwarded well shaped, with an allowlisted model and exactly its
      function tools. */
  lemma OutputShape(models: set<string>, fields: Fields)
    requires SanitizeFields(models, fields).Ok?
    ensures var Ok(out, model) := SanitizeFields(models, fields);
      && WellShaped(fields, out)
      && model in models && "model" in out && out["model"] == Str(model)
      && ("tools" in out ==>
            "tools" in fields && fields["tools"].Arr? && ForwardsTools(fields["tools"].items, out["tools"]))
      && ("tools" !in out && "tools" in fields && fields["tools"].Arr? ==> FunctionTools(fields["tools"].items) == [])
  {
    var limit := TokenLimit(fields).value;
    assert 1 <= limit <= MAX_TOKENS;
    ForwardedIsWellShaped(fields, ModelName(fields).value, KeptTools(fields).value, limit);
  }

  /** Which requests are refused, and how, in the order of the checks. */
  lemma SanitizeDecides(models: set<string>, fields: Fields)
    ensures var res := SanitizeFields(models, fields);
      var modelAllowed := "model" in fields
        && ((fields["model"].Str? && TrimSpace(fields["model"].s) in models)
            || (fields["model"].Null? && "" in models));
      var inputGiven := "input" in fields
        && fields["input"] != Null && fields["input"] != Str("") && fields["input"] != Arr([], false);
      var toolsFit := "tools" !in fields || fields["tools"].Null?
        || (fields["tools"].Arr? && |FunctionTools(fields["tools"].items)| <= 16);
      var limitIsNumber := "max_output_tokens" !in fields || fields["max_output_tokens"].Null?
        || fields["max_output_tokens"].Num?;
      && (res == Err(ModelNotAllowed) <==> !modelAllowed)
      && (res == Err(MissingInput) <==> modelAllowed && !inputGiven)
      && (res == Err(InvalidBody) <==> modelAllowed && inputGiven && !(toolsFit && limitIsNumber))
      && (res.Ok? <==> modelAllowed && inputGiven && toolsFit && limitIsNumber)
  {
  }

  /** What an accepted request is forwarded as, field by field. */
  lemma ForwardsFields(models: set<string>, fields: Fields)
    requires SanitizeFields(models, fields).Ok?
    ensures var Ok(out, model) := SanitizeFields(models, fields);
      && out.Keys <= {"model", "input", "stream", "thinking", "text", "temperature", "max_output_tokens",
                      "tools", "store"}
      && model == (if fields["model"].Str? then TrimSpace(fields["model"].s) else "")
      && "model" in out && out["model"] == Str(model) && "store" in out && out["store"] == Bool(false)
      && (forall k :: k in {"input", "stream", "thinking", "text", "temperature"} ==>
            (k in out <==> k in fields) && (k in out ==> out[k] == Compact(fields[k])))
      && ("tools" in out <==> "tools" in fields && fields["tools"].Arr? && FunctionTools(fields["tools"].items) != [])
      && ("tools" in out ==> out["tools"] == Arr(CompactAll(FunctionTools(fields["tools"].items)), false))
  {
  }

  /** The token limit: a whole number from 1 to 4499 is passed on unchanged, a fraction between
      is rounded down, and anything else becomes 4500. */
  lemma ForwardsLimit(models: set<string>, fields: Fields) returns (n: int)
    requires SanitizeFields(models, fields).Ok?
    ensures var out := SanitizeFields(models, fields).out;
      && "max_output_tokens" in out && out["max_output_tokens"] == Num(n as real)
      && if "max_output_tokens" in fields && fields["max_output_tokens"].Num?
            && 1.0 <= fields["max_output_tokens"].n < 4500.0 then
           var asked := fields["max_output_tokens"].n;
           n as real <= asked < n as real + 1.0 && (asked == asked.Floor as real ==> n as real == asked)
         else n == 4500
  {
    n := TokenLimit(fields).value;
  }

  /** More than 16 function tools is an error. */
  lemma TooManyTools(models: set<string>, fields: Fields)
    requires "tools" in fields && fields["tools"].Arr? && |FunctionTools(fields["tools"].items)| > MAX_TOOLS
    ensures SanitizeFields(models, fields).Err?
  {
  }

  lemma FloorOfWhole(k: int)
    ensures (k as real).Floor == k
  {
  }

  lemma ToolsKeptAgain(fields: Fields, model: string, limit: int)
    requires KeptTools(fields).Some?
    ensures var tools := KeptTools(fields).value;
      KeptTools(Forwarded(fields, model, tools, limit)) == Some(if tools == [] then [] else CompactAll(tools))
  {
    var tools := KeptTools(fields).value;
    var out := Forwarded(fields, model, tools, limit);
    if tools != [] {
      FunctionToolsStable(fields["tools"].items);
      assert out["tools"] == Arr(CompactAll(tools), false);
    } else {
      assert "tools" !in out;
    }
  }

  /** Sanitizing the result changes nothing, unless the input was an array whose blanks hid
      that it is empty; then the compacted result is refused. */
  lemma SanitizeIdempotent(models: set<string>, fields: Fields)
    requires IsAllowlist(models) && SanitizeFields(models, fields).Ok?
    ensures var res := SanitizeFields(models, fields);
      && (SanitizeFields(models, res.out) == res <==> fields["input"] != Arr([], true))
      && (fields["input"] == Arr([], true) ==> SanitizeFields(models, res.out) == Err(MissingInput))
  {
    var res := SanitizeFields(models, fields);
    var out, model := res.out, res.model;
    assert ModelName(out) == Some(model);
    assert out["input"] == Compact(fields["input"]);
    assert IsNullOrEmpty(out["input"]) <==> fields["input"] == Arr([], true);
    if fields["input"] != Arr([], true) {
      var tools, limit := KeptTools(fields).value, TokenLimit(fields).value;
      FloorOfWhole(limit);
      assert TokenLimit(out) == Some(limit);
      ToolsKeptAgain(fields, model, limit);
      ForwardedStable(fields, model, tools, KeptTools(out).value, limit);
    }
  }

  lemma ForwardedStable(fields: Fields, model: string, tools: seq<Json>, again: seq<Json>, limit: int)
    requires again == if tools == [] then [] else CompactAll(tools)
    ensures var out := Forwarded(fields, model, tools, limit);
      Forwarded(out, model, again, limit) == out
  {
    var out := Forwarded(fields, model, tools, limit);
    var out2 := Forwarded(out, model, again, limit);
    forall i | 0 <= i < |tools|
      ensures Compact(Compact(tools[i])) == Compact(tools[i])
    {
      CompactIdempotent(tools[i]);
    }
    assert tools != [] ==> CompactAll(again) == again;
    assert out2.Keys == out.Keys;
    forall k | k in out
      ensures out2[k] == out[k]
    {
      if k in fields {
        CompactIdempotent(fields[k]);
      }
    }
  }

  /** Every object can be written down as a body. */
  lemma {:induction false} SomeBody(fields: Fields) returns (members: seq<Member>)
    ensures Decoded(members) == fields
    decreases |fields|
  {
    members := [];
    if k :| k in fields {
      assert (fields - {k}).Keys == fields.Keys - {k};
      var rest := SomeBody(fields - {k});
      members := rest + [Member(k, fields[k])];
      assert members[..|members| - 1] == rest;
    }
  }

  /** The same for whole bodies: the result can be written down, and every document that decodes
      to it is accepted again. */
  lemma BodySanitizesAgain(models: set<string>, members: seq<Member>) returns (again: seq<Member>)
    requires IsAllowlist(models) && SanitizeFields(models, Decoded(members)).Ok?
    ensures var res := SanitizeFields(models, Decoded(members));
      && Decoded(again) == res.out
      && forall body: seq<Member> :: Decoded(body) == res.out ==>
           (SanitizeFields(models, Decoded(body)) == res <==> Decoded(members)["input"] != Arr([], true))
  {
    var res := SanitizeFields(models, Decoded(members));
    SanitizeIdempotent(models, Decoded(members));
    again := SomeBody(res.out);
  }

  /** The exception is real. */
  lemma SpacedEmptyInput(model: string)
    requires model != "" && TrimSpace(model) == model
    ensures var fields: Fields := map["model" := Str(model), "input" := Arr([], true)];
      var res := SanitizeFields({model}, fields);
      res.Ok? && SanitizeFields({model}, res.out) == Err(MissingInput)
  {
    var fields: Fields := map["model" := Str(model), "input" := Arr([], true)];
    assert SanitizeFields({model}, fields).Ok?;
    SanitizeIdempotent({model}, fields);
  }
}
