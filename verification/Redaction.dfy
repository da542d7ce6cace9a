/** What may be echoed back of a rejected request (apps/api/app/redaction.py). */
module Redaction {
  import opened Shared

  datatype Item = Item(key: string, value: Value)

  /** A payload: mappings (keys by their `str`), lists and tuples, other sequences, sets in
      iteration order, text, bytes, numbers and such, and any other object. */
  datatype Value =
    | Mapping(items: seq<Item>)
    | List(elements: seq<Value>)
    | OtherSequence(elements: seq<Value>)
    | SetOf(elements: seq<Value>)
    | Str(text: string)
    | Bytes(bytes: seq<bv8>)
    | Scalar(number: int)
    | Object(id: nat)

  const REDACTED: Value := Str("[redacted]")
  const MAX_DEPTH: nat := 12

  /** Unicode's lower case and letters, and how bytes are shown. */
  datatype Names = Names(lower: string -> string, isAlnum: char -> bool, showBytes: seq<bv8> -> string)

  function Normal(s: string, names: Names): string {
    OnlyAlnum(names.lower(s), names)
  }

  function OnlyAlnum(s: string, names: Names): string {
    if s == "" then ""
    else OnlyAlnum(s[..|s| - 1], names) + if names.isAlnum(s[|s| - 1]) then [s[|s| - 1]] else []
  }

  const SUBSTRINGS: set<string> :=
    {"password", "passwd", "passphrase", "secret", "token", "apikey", "credential", "privatekey", "accesskey",
     "authorization", "bearer", "cookie", "sessionid"}

  const EXACT: set<string> :=
    {"pwd", "pin", "otp", "auth", "key", "keys", "sig", "signature", "salt", "hash", "code", "nonce"}

  const NEVER_ECHO: set<string> := {"extra_forbidden", "json_invalid", "json_type"}

  predicate Contains(s: string, part: string) {
    part <= s || (s != "" && Contains(s[1..], part))
  }

  /** is_sensitive_name */
  predicate Sensitive(key: string, names: Names) {
    var n := Normal(key, names);
    n != "" && (n in EXACT || exists token :: token in SUBSTRINGS && Contains(n, token))
  }

  function Redact(v: Value, all: bool, depth: nat, names: Names): Value
    decreases v
  {
    if depth >= MAX_DEPTH then REDACTED
    else
      match v
      case Mapping(items) =>
        Mapping(seq(|items|, i requires 0 <= i < |items| =>
          Item(items[i].key, if Sensitive(items[i].key, names) then REDACTED else Redact(items[i].value, all, depth + 1, names))))
      case Str(_) => if all then REDACTED else v
      case Bytes(_) => if all then REDACTED else v
      case List(es) => List(seq(|es|, i requires 0 <= i < |es| => Redact(es[i], all, depth + 1, names)))
      case OtherSequence(es) => List(seq(|es|, i requires 0 <= i < |es| => Redact(es[i], all, depth + 1, names)))
      case SetOf(es) => List(seq(|es|, i requires 0 <= i < |es| => Redact(es[i], all, depth + 1, names)))
      case Scalar(_) => v
      case Object(_) => if all then REDACTED else v
  }

  // --------------------------------------------------------- twice is once

  /** Redacting what was redacted is redacting once, as strictly as the stricter of the two. */
  lemma {:induction false} RedactTwice(v: Value, a: bool, b: bool, depth: nat, names: Names)
    ensures Redact(Redact(v, a, depth, names), b, depth, names) == Redact(v, a || b, depth, names)
    decreases v
  {
    if depth < MAX_DEPTH {
      match v
      case Mapping(items) =>
        var w := Redact(v, a, depth, names);
        forall i | 0 <= i < |items|
          ensures Redact(w, b, depth, names).items[i] == Redact(v, a || b, depth, names).items[i]
        {
          RedactTwice(items[i].value, a, b, depth + 1, names);
        }
      case List(es) => ElementsTwice(v, a, b, depth, names);
      case OtherSequence(es) => ElementsTwice(v, a, b, depth, names);
      case SetOf(es) => ElementsTwice(v, a, b, depth, names);
      case _ =>
    }
  }

  predicate IsSequence(v: Value) {
    v.List? || v.OtherSequence? || v.SetOf?
  }

  lemma {:induction false} ElementsTwice(v: Value, a: bool, b: bool, depth: nat, names: Names)
    requires IsSequence(v) && depth < MAX_DEPTH
    ensures Redact(Redact(v, a, depth, names), b, depth, names) == Redact(v, a || b, depth, names)
    decreases v, 0
  {
    var w := Redact(v, a, depth, names);
    forall i | 0 <= i < |v.elements|
      ensures Redact(w, b, depth, names).elements[i] == Redact(v, a || b, depth, names).elements[i]
    {
      RedactTwice(v.elements[i], a, b, depth + 1, names);
    }
  }

  // ------------------------------------------------------- what the echo can tell

  /** Leaves that are not echoed when all text is to go. */
  predicate Hidden(v: Value, all: bool) {
    all && (v.Str? || v.Bytes? || v.Object?)
  }

  /** Payloads that differ only under sensitive keys, below the depth limit, in hidden leaves and
      in the kind of a sequence. */
  predicate Alike(v: Value, w: Value, all: bool, depth: nat, names: Names)
    decreases v
  {
    || depth >= MAX_DEPTH
    || (Hidden(v, all) && Hidden(w, all))
    || (v.Mapping? && w.Mapping? && |v.items| == |w.items|
        && forall i | 0 <= i < |v.items| ::
             && v.items[i].key == w.items[i].key
             && (Sensitive(v.items[i].key, names) || Alike(v.items[i].value, w.items[i].value, all, depth + 1, names)))
    || (IsSequence(v) && IsSequence(w) && |v.elements| == |w.elements|
        && forall i | 0 <= i < |v.elements| :: Alike(v.elements[i], w.elements[i], all, depth + 1, names))
    || (!v.Mapping? && !IsSequence(v) && v == w)
  }

  /** The echoes are equal exactly when the payloads are alike: nothing else shows, and nothing
      else is lost. */
  lemma {:induction false} EchoTellsExactly(v: Value, w: Value, all: bool, depth: nat, names: Names)
    ensures EchoTells(v, w, all, depth, names)
    decreases v
  {
    if depth < MAX_DEPTH {
      if v.Mapping? && w.Mapping? && |v.items| == |w.items| {
        forall i | 0 <= i < |v.items| ensures EchoTells(v.items[i].value, w.items[i].value, all, depth + 1, names) {
          EchoTellsExactly(v.items[i].value, w.items[i].value, all, depth + 1, names);
        }
        ItemsTell(v, w, all, depth, names);
      } else if IsSequence(v) && IsSequence(w) && |v.elements| == |w.elements| {
        forall i | 0 <= i < |v.elements| ensures EchoTells(v.elements[i], w.elements[i], all, depth + 1, names) {
          EchoTellsExactly(v.elements[i], w.elements[i], all, depth + 1, names);
        }
        ElementsTell(v, w, all, depth, names);
      } else {
        OthersTell(v, w, all, depth, names);
      }
    }
  }

  predicate EchoTells(v: Value, w: Value, all: bool, depth: nat, names: Names) {
    Redact(v, all, depth, names) == Redact(w, all, depth, names) <==> Alike(v, w, all, depth, names)
  }

  lemma ItemsTell(v: Value, w: Value, all: bool, depth: nat, names: Names)
    requires v.Mapping? && w.Mapping? && |v.items| == |w.items| && depth < MAX_DEPTH
    requires forall i | 0 <= i < |v.items| :: EchoTells(v.items[i].value, w.items[i].value, all, depth + 1, names)
    ensures EchoTells(v, w, all, depth, names)
  {
    var p, q := Redact(v, all, depth, names), Redact(w, all, depth, names);
    forall i | 0 <= i < |v.items|
      ensures p.items[i] == q.items[i] <==>
        && v.items[i].key == w.items[i].key
        && (Sensitive(v.items[i].key, names) || Alike(v.items[i].value, w.items[i].value, all, depth + 1, names))
    {
      assert EchoTells(v.items[i].value, w.items[i].value, all, depth + 1, names);
    }
    assert p == q <==> forall i | 0 <= i < |v.items| :: p.items[i] == q.items[i];
  }

  lemma ElementsTell(v: Value, w: Value, all: bool, depth: nat, names: Names)
    requires IsSequence(v) && IsSequence(w) && |v.elements| == |w.elements| && depth < MAX_DEPTH
    requires forall i | 0 <= i < |v.elements| :: EchoTells(v.elements[i], w.elements[i], all, depth + 1, names)
    ensures EchoTells(v, w, all, depth, names)
  {
    var p, q := Redact(v, all, depth, names), Redact(w, all, depth, names);
    forall i | 0 <= i < |v.elements|
      ensures p.elements[i] == q.elements[i] <==> Alike(v.elements[i], w.elements[i], all, depth + 1, names)
    {
      assert EchoTells(v.elements[i], w.elements[i], all, depth + 1, names);
    }
    assert p == q <==> forall i | 0 <= i < |v.elements| :: p.elements[i] == q.elements[i];
  }

  lemma OthersTell(v: Value, w: Value, all: bool, depth: nat, names: Names)
    requires depth < MAX_DEPTH
    requires v.Mapping? && w.Mapping? ==> |v.items| != |w.items|
    requires IsSequence(v) && IsSequence(w) ==> |v.elements| != |w.elements|
    ensures EchoTells(v, w, all, depth, names)
  {
    var p, q := Redact(v, all, depth, names), Redact(w, all, depth, names);
    assert v.Mapping? ==> p.Mapping? && |p.items| == |v.items|;
    assert w.Mapping? ==> q.Mapping? && |q.items| == |w.items|;
    assert IsSequence(v) ==> p.List? && |p.elements| == |v.elements|;
    assert IsSequence(w) ==> q.List? && |q.elements| == |w.elements|;
  }

  /** At most `depth` levels of containers. */
  predicate WithinDepth(v: Value, depth: nat)
    decreases v
  {
    match v
    case Mapping(items) => depth > 0 && forall i | 0 <= i < |items| :: WithinDepth(items[i].value, depth - 1)
    case List(es) => depth > 0 && forall i | 0 <= i < |es| :: WithinDepth(es[i], depth - 1)
    case OtherSequence(es) => depth > 0 && forall i | 0 <= i < |es| :: WithinDepth(es[i], depth - 1)
    case SetOf(es) => depth > 0 && forall i | 0 <= i < |es| :: WithinDepth(es[i], depth - 1)
    case _ => true
  }

  lemma {:induction false} EchoIsShallow(v: Value, all: bool, depth: nat, names: Names)
    requires depth <= MAX_DEPTH
    ensures WithinDepth(Redact(v, all, depth, names), MAX_DEPTH - depth)
    decreases v
  {
    if depth < MAX_DEPTH {
      if v.Mapping? {
        forall i | 0 <= i < |v.items| ensures WithinDepth(Redact(v, all, depth, names).items[i].value, MAX_DEPTH - depth - 1) {
          EchoIsShallow(v.items[i].value, all, depth + 1, names);
        }
      } else if IsSequence(v) {
        forall i | 0 <= i < |v.elements| ensures WithinDepth(Redact(v, all, depth, names).elements[i], MAX_DEPTH - depth - 1) {
          EchoIsShallow(v.elements[i], all, depth + 1, names);
        }
      }
    }
  }

  /** Every leaf of text, bytes or an object is the marker, and so is all under a sensitive key. */
  predicate Scrubbed(v: Value, all: bool, names: Names)
    decreases v
  {
    match v
    case Mapping(items) =>
      forall i | 0 <= i < |items| ::
        if Sensitive(items[i].key, names) then items[i].value == REDACTED else Scrubbed(items[i].value, all, names)
    case List(es) => forall i | 0 <= i < |es| :: Scrubbed(es[i], all, names)
    case OtherSequence(es) => false
    case SetOf(es) => false
    case Scalar(_) => true
    case _ => all ==> v == REDACTED
  }

  lemma {:induction false} EchoIsScrubbed(v: Value, all: bool, depth: nat, names: Names)
    ensures Scrubbed(Redact(v, all, depth, names), all, names)
    decreases v
  {
    if depth < MAX_DEPTH {
      if v.Mapping? {
        var w := Redact(v, all, depth, names);
        forall i | 0 <= i < |v.items|
          ensures if Sensitive(w.items[i].key, names) then w.items[i].value == REDACTED else Scrubbed(w.items[i].value, all, names)
        {
          EchoIsScrubbed(v.items[i].value, all, depth + 1, names);
        }
      } else if IsSequence(v) {
        forall i | 0 <= i < |v.elements| ensures Scrubbed(Redact(v, all, depth, names).elements[i], all, names) {
          EchoIsScrubbed(v.elements[i], all, depth + 1, names);
        }
      }
    }
  }

  // ------------------------------------------------------------- batches of errors

  type Error = map<string, Value>

  function NameOf(v: Value, names: Names): string
    requires v.Str? || v.Bytes?
  {
    if v.Str? then v.text else names.showBytes(v.bytes)
  }

  /** _loc_is_sensitive */
  predicate LocIsSensitive(error: Error, names: Names) {
    && "loc" in error
    && match error["loc"] {
       case Str(_) => Sensitive(NameOf(error["loc"], names), names)
       case Bytes(_) => Sensitive(NameOf(error["loc"], names), names)
       case List(es) => exists i :: 0 <= i < |es| && (es[i].Str? || es[i].Bytes?) && Sensitive(NameOf(es[i], names), names)
       case OtherSequence(es) => exists i :: 0 <= i < |es| && (es[i].Str? || es[i].Bytes?) && Sensitive(NameOf(es[i], names), names)
       case _ => false
     }
  }

  predicate TargetsCredential(errors: seq<Error>, names: Names) {
    exists i :: 0 <= i < |errors| && LocIsSensitive(errors[i], names)
  }

  /** Errors about a credential field, or about text nobody has vetted. */
  predicate Blanket(error: Error, names: Names) {
    || LocIsSensitive(error, names)
    || ("type" in error && error["type"].Str? && error["type"].text in NEVER_ECHO)
  }

  predicate IsContainer(v: Value) {
    v.Mapping? || v.List? || v.SetOf?
  }

  function EchoedInput(v: Value, armed: bool, blanket: bool, names: Names): Value {
    if blanket && !IsContainer(v) then REDACTED else Redact(v, armed || blanket, 0, names)
  }

  function EchoedCtx(v: Value, armed: bool, blanket: bool, names: Names): Value {
    if blanket then REDACTED else Redact(v, armed, 0, names)
  }

  function Cleaned(error: Error, armed: bool, names: Names): Error {
    map k | k in error ::
      if k == "input" then EchoedInput(error[k], armed, Blanket(error, names), names)
      else if k == "ctx" then EchoedCtx(error[k], armed, Blanket(error, names), names)
      else error[k]
  }

  function Sanitized(errors: seq<Error>, names: Names): (r: seq<Error>)
    ensures |r| == |errors|
  {
    seq(|errors|, i requires 0 <= i < |errors| => Cleaned(errors[i], TargetsCredential(errors, names), names))
  }

  /** redact_validation_errors */
  method RedactValidationErrors(errors: seq<Error>, names: Names) returns (sanitized: seq<Error>)
    ensures sanitized == Sanitized(errors, names)
  {
    var armed := TargetsCredential(errors, names);
    sanitized := [];
    for i := 0 to |errors|
      invariant |sanitized| == i
      invariant forall j | 0 <= j < i :: sanitized[j] == Cleaned(errors[j], armed, names)
    {
      var error := errors[i];
      var cleaned := map k | k in error && k != "input" && k != "ctx" :: error[k];
      var blanket := Blanket(error, names);
      if "input" in error {
        var raw := error["input"];
        if blanket && !IsContainer(raw) {
          cleaned := cleaned["input" := REDACTED];
        } else {
          cleaned := cleaned["input" := Redact(raw, armed || blanket, 0, names)];
        }
      }
      if "ctx" in error {
        cleaned := cleaned["ctx" := if blanket then REDACTED else Redact(error["ctx"], armed, 0, names)];
      }
      sanitized := sanitized + [cleaned];
    }
  }

  /** Everything but `input` and `ctx` passes through, so a batch and its echo are judged alike. */
  lemma DiagnosisPassesThrough(errors: seq<Error>, names: Names)
    ensures forall i | 0 <= i < |errors| ::
              && Sanitized(errors, names)[i].Keys == errors[i].Keys
              && (forall k | k in errors[i] && k != "input" && k != "ctx" :: Sanitized(errors, names)[i][k] == errors[i][k])
              && LocIsSensitive(Sanitized(errors, names)[i], names) == LocIsSensitive(errors[i], names)
              && Blanket(Sanitized(errors, names)[i], names) == Blanket(errors[i], names)
    ensures TargetsCredential(Sanitized(errors, names), names) == TargetsCredential(errors, names)
  {
    forall i | 0 <= i < |errors|
      ensures LocIsSensitive(Sanitized(errors, names)[i], names) == LocIsSensitive(errors[i], names)
      ensures Blanket(Sanitized(errors, names)[i], names) == Blanket(errors[i], names)
    {
      var e := Sanitized(errors, names)[i];
      assert "loc" in e <==> "loc" in errors[i];
      assert "loc" in e ==> e["loc"] == errors[i]["loc"];
      assert "type" in e <==> "type" in errors[i];
    }
  }

  lemma InputTwice(v: Value, armed: bool, blanket: bool, names: Names)
    ensures EchoedInput(EchoedInput(v, armed, blanket, names), armed, blanket, names) == EchoedInput(v, armed, blanket, names)
  {
    RedactTwice(v, armed || blanket, armed || blanket, 0, names);
  }

  lemma CtxTwice(v: Value, armed: bool, blanket: bool, names: Names)
    ensures EchoedCtx(EchoedCtx(v, armed, blanket, names), armed, blanket, names) == EchoedCtx(v, armed, blanket, names)
  {
    RedactTwice(v, armed, armed, 0, names);
  }

  /** Sanitizing a sanitized batch changes nothing. */
  lemma SanitizingTwiceIsOnce(errors: seq<Error>, names: Names)
    ensures Sanitized(Sanitized(errors, names), names) == Sanitized(errors, names)
  {
    DiagnosisPassesThrough(errors, names);
    var once := Sanitized(errors, names);
    var armed := TargetsCredential(errors, names);
    forall i | 0 <= i < |errors| ensures Cleaned(once[i], armed, names) == once[i] {
      var blanket := Blanket(errors[i], names);
      forall k | k in errors[i] ensures Cleaned(once[i], armed, names)[k] == once[i][k] {
        InputTwice(errors[i][k], armed, blanket, names);
        CtxTwice(errors[i][k], armed, blanket, names);
      }
    }
  }

  /** Errors that differ only in what must not show. */
  predicate AlikeErrors(e: Error, f: Error, armed: bool, names: Names) {
    var blanket := Blanket(e, names);
    && e.Keys == f.Keys
    && (forall k | k in e && k != "input" && k != "ctx" :: e[k] == f[k])
    && ("input" in e ==>
          if blanket && (!IsContainer(e["input"]) || !IsContainer(f["input"]))
          then !IsContainer(e["input"]) && !IsContainer(f["input"])
          else Alike(e["input"], f["input"], armed || blanket, 0, names))
    && ("ctx" in e ==> blanket || Alike(e["ctx"], f["ctx"], armed, 0, names))
  }

  lemma SameDiagnosis(e: Error, f: Error, names: Names)
    requires e.Keys == f.Keys && forall k | k in e && k != "input" && k != "ctx" :: e[k] == f[k]
    ensures LocIsSensitive(e, names) == LocIsSensitive(f, names) && Blanket(e, names) == Blanket(f, names)
  {
    assert "loc" in e <==> "loc" in f;
    assert "type" in e <==> "type" in f;
  }

  lemma CleanedTellsExactly(e: Error, f: Error, armed: bool, names: Names)
    ensures Cleaned(e, armed, names) == Cleaned(f, armed, names) <==> AlikeErrors(e, f, armed, names)
  {
    var c, d := Cleaned(e, armed, names), Cleaned(f, armed, names);
    if e.Keys == f.Keys && forall k | k in e && k != "input" && k != "ctx" :: e[k] == f[k] {
      SameDiagnosis(e, f, names);
      var blanket := Blanket(e, names);
      if "input" in e {
        EchoTellsExactly(e["input"], f["input"], armed || blanket, 0, names);
      }
      if "ctx" in e {
        EchoTellsExactly(e["ctx"], f["ctx"], armed, 0, names);
      }
      assert c == d <==> ("input" in e ==> c["input"] == d["input"]) && ("ctx" in e ==> c["ctx"] == d["ctx"]) by {
        assert forall k | k in e && k != "input" && k != "ctx" :: c[k] == d[k];
      }
    } else {
      assert c.Keys == e.Keys && d.Keys == f.Keys;
      assert forall k | k in e && k != "input" && k != "ctx" :: c[k] == e[k];
      assert forall k | k in f && k != "input" && k != "ctx" :: d[k] == f[k];
    }
  }

  /** Two batches give one response exactly when they differ only in what must not show. */
  lemma ResponseTellsExactly(errors: seq<Error>, others: seq<Error>, names: Names)
    ensures Sanitized(errors, names) == Sanitized(others, names)
       <==> |errors| == |others|
            && TargetsCredential(errors, names) == TargetsCredential(others, names)
            && forall i | 0 <= i < |errors| :: AlikeErrors(errors[i], others[i], TargetsCredential(errors, names), names)
  {
    DiagnosisPassesThrough(errors, names);
    DiagnosisPassesThrough(others, names);
    var armed := TargetsCredential(errors, names);
    var p, q := Sanitized(errors, names), Sanitized(others, names);
    if |errors| == |others| && armed == TargetsCredential(others, names) {
      forall i | 0 <= i < |errors| ensures p[i] == q[i] <==> AlikeErrors(errors[i], others[i], armed, names) {
        CleanedTellsExactly(errors[i], others[i], armed, names);
      }
      assert p == q <==> forall i | 0 <= i < |errors| :: p[i] == q[i];
    }
  }
}
