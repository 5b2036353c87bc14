/** The two bounded redactors: the buyer's, for tool output shown in the demo chat, and the
    seller's, for the public tool trace. They differ in one key only. */
module Redaction {
  import opened Options

  const MAX_DEPTH := 8
  const MAX_ITEMS := 30
  const MAX_STRING := 4000
  const REDACTED := "[redacted]"
  const TRUNCATED := "[truncated]"
  const CUT_SUFFIX := "\U{2026} [truncated]"
  const EXEMPT_KEY := "transaction_signature"

  datatype Field = Field(key: string, value: Json)

  /** A decoded value. A dictionary is the sequence of its items in order; Other stands for a value
      of no JSON type, known by its printed form. */
  datatype Json =
    | Null
    | Bool(b: bool)
    | Number(n: real)
    | Text(s: string)
    | List(items: seq<Json>)
    | Object(fields: seq<Field>)
    | Other(printed: string)

  datatype Redactor = Tool | Trace

  function Lower(c: char): char
  {
    if 'A' <= c <= 'Z' then (c as int + 32) as char else c
  }

  function Normalized(key: string): string
  {
    seq(|key|, i requires 0 <= i < |key| => if key[i] == '-' then '_' else Lower(key[i]))
  }

  predicate Contains(s: string, part: string)
  {
    part <= s || (s != "" && Contains(s[1..], part))
  }

  predicate IsSensitiveKey(key: string)
  {
    var k := Normalized(key);
    Contains(k, "authorization") || Contains(k, "credential") || Contains(k, "private")
    || Contains(k, "secret") || Contains(k, "signature") || Contains(k, "token")
  }

  predicate Masks(who: Redactor, key: string)
  {
    IsSensitiveKey(key) && (who == Trace || key != EXEMPT_KEY)
  }

  /** The word occurs in the key at a position, ASCII case aside and with '-' read as '_'. */
  ghost predicate OccursAt(key: string, word: string, at: nat)
  {
    at + |word| <= |key|
    && forall k :: 0 <= k < |word| ==>
         var c := key[at + k];
         word[k] == if c == '-' then '_' else if 'A' <= c <= 'Z' then (c as int + 32) as char else c
  }

  lemma {:induction false} ContainsIsSomewhere(s: string, part: string)
    ensures Contains(s, part) <==> exists at :: 0 <= at <= |s| && part <= s[at..]
  {
    if part <= s {
      assert s[0..] == s;
    } else if s != "" {
      ContainsIsSomewhere(s[1..], part);
      if at :| 0 <= at <= |s[1..]| && part <= s[1..][at..] {
        assert s[at + 1..] == s[1..][at..];
      }
      if at :| 0 <= at <= |s| && part <= s[at..] {
        assert at > 0 by {
          assert s[0..] == s;
        }
        assert s[1..][at - 1..] == s[at..];
      }
    }
  }

  lemma OccursHere(key: string, word: string, at: nat)
    requires at <= |key|
    ensures word <= Normalized(key)[at..] <==> OccursAt(key, word, at)
  {
    var n := Normalized(key);
    assert forall k :: 0 <= k < |n| - at ==> n[at..][k] == n[at + k];
    hide Normalized;
    if at + |word| <= |key| {
      assert word <= n[at..] <==> forall k :: 0 <= k < |word| ==> word[k] == n[at..][k];
    }
    NormalizedAt(key);
  }

  lemma NormalizedAt(key: string)
    ensures |Normalized(key)| == |key|
    ensures forall i :: 0 <= i < |key| ==>
              Normalized(key)[i] == var c := key[i];
                                    if c == '-' then '_' else if 'A' <= c <= 'Z' then (c as int + 32) as char else c
  {
  }

  lemma OccursInNormalized(key: string, word: string)
    ensures Contains(Normalized(key), word) <==> exists at: nat :: OccursAt(key, word, at)
  {
    ContainsIsSomewhere(Normalized(key), word);
    NormalizedAt(key);
    hide Contains, Normalized;
    forall at: nat | at <= |key|
      ensures word <= Normalized(key)[at..] <==> OccursAt(key, word, at)
    {
      OccursHere(key, word, at);
    }
  }

  /** Exactly which keys are sensitive: those in which one of the six words occurs somewhere. */
  lemma KeyIsSensitiveExactlyWhen(key: string)
    ensures IsSensitiveKey(key)
            <==> exists word, at: nat :: word in {"authorization", "credential", "private", "secret", "signature", "token"}
                                         && OccursAt(key, word, at)
    ensures Masks(Trace, key) <==> IsSensitiveKey(key)
    ensures Masks(Tool, key) <==> IsSensitiveKey(key) && key != "transaction_signature"
  {
    var words := {"authorization", "credential", "private", "secret", "signature", "token"};
    forall word | word in words
      ensures Contains(Normalized(key), word) <==> exists at: nat :: OccursAt(key, word, at)
    {
      OccursInNormalized(key, word);
    }
    hide Contains, Normalized, OccursAt;
    assert forall word :: word in words <==> word == "authorization" || word == "credential" || word == "private"
                                             || word == "secret" || word == "signature" || word == "token";
  }

  function Kept(n: nat): nat
  {
    if n <= MAX_ITEMS then n else MAX_ITEMS
  }

  function CutText(s: string): string
  {
    if |s| <= MAX_STRING then s else s[..MAX_STRING] + CUT_SUFFIX
  }

  /** The value stored under a key. */
  function RedactEntry(who: Redactor, key: string, v: Json, depth: nat): Json
    decreases v, 1
  {
    if Masks(who, key) then Text(REDACTED) else Redact(who, v, depth)
  }

  function Redact(who: Redactor, v: Json, depth: nat): Json
    decreases v, 0
  {
    if depth > MAX_DEPTH then Text(TRUNCATED)
    else
      match v
      case Object(fields) =>
        Object(seq(Kept(|fields|), i requires 0 <= i < Kept(|fields|) =>
          Field(fields[i].key, RedactEntry(who, fields[i].key, fields[i].value, depth + 1))))
      case List(items) =>
        List(seq(Kept(|items|), i requires 0 <= i < Kept(|items|) => Redact(who, items[i], depth + 1)))
      case Text(s) => Text(CutText(s))
      case Other(printed) => Text(if |printed| <= MAX_STRING then printed else printed[..MAX_STRING])
      case _ => v
  }

  function SafeToolValue(v: Json): Json { Redact(Tool, v, 0) }

  function SafeTraceValue(v: Json): Json { Redact(Trace, v, 0) }

  // ---------- What a redacted value looks like ----------

  /** No masked key keeps its value, no collection or string exceeds its bound, and no value lies
      deeper than the cut. */
  ghost predicate Bounded(who: Redactor, v: Json, depth: nat)
    decreases v
  {
    match v
    case Object(fields) =>
      depth <= MAX_DEPTH && |fields| <= MAX_ITEMS &&
      forall i :: 0 <= i < |fields| ==>
        if Masks(who, fields[i].key) then fields[i].value == Text(REDACTED)
        else Bounded(who, fields[i].value, depth + 1)
    case List(items) =>
      depth <= MAX_DEPTH && |items| <= MAX_ITEMS &&
      forall i :: 0 <= i < |items| ==> Bounded(who, items[i], depth + 1)
    case Text(s) => |s| <= MAX_STRING + |CUT_SUFFIX| && (depth > MAX_DEPTH ==> s == TRUNCATED)
    case Other(_) => false
    case _ => depth <= MAX_DEPTH
  }

  lemma {:induction false} RedactedIsBounded(who: Redactor, v: Json, depth: nat)
    ensures Bounded(who, Redact(who, v, depth), depth)
    decreases v
  {
    hide IsSensitiveKey;
    if depth <= MAX_DEPTH {
      match v
      case Object(fields) =>
        forall i | 0 <= i < Kept(|fields|)
          ensures Bounded(who, Redact(who, fields[i].value, depth + 1), depth + 1)
        {
          RedactedIsBounded(who, fields[i].value, depth + 1);
        }
      case List(items) =>
        forall i | 0 <= i < Kept(|items|)
          ensures Bounded(who, Redact(who, items[i], depth + 1), depth + 1)
        {
          RedactedIsBounded(who, items[i], depth + 1);
        }
      case _ =>
    }
  }

  // ---------- What redaction keeps ----------

  /** The value found by following positions through lists and dictionaries. */
  function At(v: Json, path: seq<nat>): Option<Json>
  {
    if path == [] then Some(v)
    else
      match v
      case List(items) => if path[0] < |items| then At(items[path[0]], path[1..]) else None
      case Object(fields) => if path[0] < |fields| then At(fields[path[0]].value, path[1..]) else None
      case _ => None
  }

  /** Along the path no key is masked and every position is among those kept. */
  predicate Visible(who: Redactor, v: Json, path: seq<nat>)
  {
    path == []
    || (&& path[0] < MAX_ITEMS
        && match v
           case List(items) => path[0] < |items| && Visible(who, items[path[0]], path[1..])
           case Object(fields) =>
             path[0] < |fields| && !Masks(who, fields[path[0]].key) && Visible(who, fields[path[0]].value, path[1..])
           case _ => false)
  }

  lemma KeysStay(who: Redactor, fields: seq<Field>, depth: nat)
    requires depth <= MAX_DEPTH
    ensures Redact(who, Object(fields), depth).Object?
    ensures var out := Redact(who, Object(fields), depth).fields;
            |out| == Kept(|fields|) && forall i :: 0 <= i < |out| ==> out[i].key == fields[i].key
  {
  }

  /** Nothing else is lost: wherever a path within the bounds leads past no masked key, the redacted
      value has, at that very place, what redaction makes of the value there - an unchanged number,
      flag or null, a text cut at most at its end, a dictionary with its first thirty keys. */
  lemma {:induction false} VisibleValuesStay(who: Redactor, v: Json, depth: nat, path: seq<nat>)
    requires Visible(who, v, path) && depth + |path| <= MAX_DEPTH
    ensures At(v, path).Some?
    ensures At(Redact(who, v, depth), path) == Some(Redact(who, At(v, path).value, depth + |path|))
    ensures var (was, kept) := (At(v, path).value, At(Redact(who, v, depth), path).value);
            && (was.Null? || was.Bool? || was.Number? ==> kept == was)
            && (was.Text? ==> kept == Text(if |was.s| <= 4000 then was.s else was.s[..4000] + "\U{2026} [truncated]"))
            && (was.Other? ==> kept == Text(if |was.printed| <= 4000 then was.printed else was.printed[..4000]))
            && (was.List? ==> kept.List? && |kept.items| == if |was.items| <= 30 then |was.items| else 30)
            && (was.Object? ==> kept.Object? && |kept.fields| == (if |was.fields| <= 30 then |was.fields| else 30)
                                && forall i :: 0 <= i < |kept.fields| ==> kept.fields[i].key == was.fields[i].key)
    decreases |path|
  {
    hide Masks;
    if path == [] {
      if v.Object? {
        KeysStay(who, v.fields, depth);
      }
    } else {
      match v
      case List(items) =>
        VisibleValuesStay(who, items[path[0]], depth + 1, path[1..]);
      case Object(fields) =>
        KeysStay(who, fields, depth);
        VisibleValuesStay(who, fields[path[0]].value, depth + 1, path[1..]);
    }
  }

  // ---------- Composition ----------

  lemma CutTextIsIdempotent(s: string)
    ensures CutText(CutText(s)) == CutText(s)
  {
    if |s| > MAX_STRING {
      assert CutText(s)[..MAX_STRING] == s[..MAX_STRING];
    }
  }

  lemma {:induction false} StrongerAbsorbsInEntry(first: Redactor, second: Redactor, key: string, v: Json, depth: nat)
    requires first == second || second == Trace
    ensures RedactEntry(second, key, RedactEntry(first, key, v, depth), depth) == RedactEntry(second, key, v, depth)
    decreases v, 1
  {
    StrongerAbsorbs(first, second, v, depth);
    hide IsSensitiveKey, Redact;
  }

  /** A redactor applied after one that masks no more than it does gives its own result. With
      first == second this is idempotence; with Trace after Tool it is absorption. */
  lemma {:induction false} StrongerAbsorbs(first: Redactor, second: Redactor, v: Json, depth: nat)
    requires first == second || second == Trace
    ensures Redact(second, Redact(first, v, depth), depth) == Redact(second, v, depth)
    decreases v, 0
  {
    hide IsSensitiveKey, RedactEntry;
    if depth <= MAX_DEPTH {
      match v
      case Object(fields) =>
        var once := Redact(first, v, depth).fields;
        forall i | 0 <= i < |once|
          ensures Redact(second, Object(once), depth).fields[i] == Redact(second, v, depth).fields[i]
        {
          StrongerAbsorbsInEntry(first, second, fields[i].key, fields[i].value, depth + 1);
        }
        assert Redact(second, Object(once), depth).fields == Redact(second, v, depth).fields;
      case List(items) =>
        var once := Redact(first, v, depth).items;
        forall i | 0 <= i < |once|
          ensures Redact(second, List(once), depth).items[i] == Redact(second, v, depth).items[i]
        {
          StrongerAbsorbs(first, second, items[i], depth + 1);
        }
        assert Redact(second, List(once), depth).items == Redact(second, v, depth).items;
      case Text(s) => CutTextIsIdempotent(s);
      case _ =>
    }
  }

  /** Some dictionary exactly at the depth cut, reachable without passing a masked key or leaving
      the first 30 items, holds the exempt key among its own first 30. */
  predicate SignatureAtCut(v: Json, depth: nat)
    decreases v
  {
    depth <= MAX_DEPTH &&
    match v
    case Object(fields) =>
      exists i :: 0 <= i < Kept(|fields|) &&
        (if depth == MAX_DEPTH then fields[i].key == EXEMPT_KEY
         else !Masks(Trace, fields[i].key) && SignatureAtCut(fields[i].value, depth + 1))
    case List(items) =>
      exists i :: 0 <= i < Kept(|items|) && SignatureAtCut(items[i], depth + 1)
    case _ => false
  }

  lemma {:induction false} ContainsAt(s: string, part: string, k: nat)
    requires k <= |s| && part <= s[k..]
    ensures Contains(s, part)
    decreases k
  {
    if k > 0 {
      assert s[1..][k - 1..] == s[k..];
      ContainsAt(s[1..], part, k - 1);
    }
  }

  lemma ExemptKeyIsSensitive()
    ensures IsSensitiveKey(EXEMPT_KEY)
  {
    var k := Normalized(EXEMPT_KEY);
    assert EXEMPT_KEY == "transaction_" + "signature";
    assert k[12..] == "signature";
    ContainsAt(k, "signature", 12);
  }

  /** In the other order the buyer's redactor leaves the seller's output alone, except when it meets
      the exempt key right at the cut: there "[redacted]" becomes "[truncated]". */
  lemma {:induction false} ToolAfterTrace(v: Json, depth: nat)
    ensures Redact(Tool, Redact(Trace, v, depth), depth) == Redact(Trace, v, depth)
            <==> !SignatureAtCut(v, depth)
    decreases v, 2
  {
    hide IsSensitiveKey;
    if depth <= MAX_DEPTH {
      match v
      case Object(fields) =>
        ToolAfterTraceInObject(v, depth);
      case List(items) =>
        var once := Redact(Trace, v, depth).items;
        forall i | 0 <= i < |once|
          ensures Redact(Tool, List(once), depth).items[i] == once[i] <==> !SignatureAtCut(items[i], depth + 1)
        {
          ToolAfterTrace(items[i], depth + 1);
        }
        assert Redact(Tool, List(once), depth).items == once
          <==> forall i :: 0 <= i < |once| ==> Redact(Tool, List(once), depth).items[i] == once[i];
      case Text(s) => CutTextIsIdempotent(s);
      case _ =>
    }
  }

  lemma {:induction false} ToolAfterTraceInEntry(key: string, v: Json, depth: nat)
    requires 0 < depth <= MAX_DEPTH + 1
    ensures RedactEntry(Tool, key, RedactEntry(Trace, key, v, depth), depth) == RedactEntry(Trace, key, v, depth)
            <==> !(if depth == MAX_DEPTH + 1 then key == EXEMPT_KEY
                   else !Masks(Trace, key) && SignatureAtCut(v, depth))
    decreases v, 3
  {
    ExemptKeyIsSensitive();
    ToolAfterTrace(v, depth);
    hide IsSensitiveKey;
    assert |REDACTED| == 10 && |TRUNCATED| == 11;
  }

  lemma {:induction false} ToolAfterTraceInObject(v: Json, depth: nat)
    requires v.Object? && depth <= MAX_DEPTH
    ensures Redact(Tool, Redact(Trace, v, depth), depth) == Redact(Trace, v, depth)
            <==> !SignatureAtCut(v, depth)
    decreases v, 1
  {
    hide IsSensitiveKey, RedactEntry;
    var fields := v.fields;
    var once := Redact(Trace, v, depth).fields;
    var twice := Redact(Tool, Object(once), depth).fields;
    forall i | 0 <= i < |once|
      ensures twice[i] == once[i] <==>
              !(if depth == MAX_DEPTH then fields[i].key == EXEMPT_KEY
                else !Masks(Trace, fields[i].key) && SignatureAtCut(fields[i].value, depth + 1))
    {
      ToolAfterTraceInEntry(fields[i].key, fields[i].value, depth + 1);
    }
    assert twice == once <==> forall i :: 0 <= i < |once| ==> twice[i] == once[i];
  }

  /** What the two public redactors promise on every value, and the one exception. */
  lemma RedactorsCompose(v: Json)
    ensures SafeToolValue(SafeToolValue(v)) == SafeToolValue(v)
    ensures SafeTraceValue(SafeTraceValue(v)) == SafeTraceValue(v)
    ensures SafeTraceValue(SafeToolValue(v)) == SafeTraceValue(v)
    ensures SafeToolValue(SafeTraceValue(v)) == SafeTraceValue(v) <==> !SignatureAtCut(v, 0)
  {
    StrongerAbsorbs(Tool, Tool, v, 0);
    StrongerAbsorbs(Trace, Trace, v, 0);
    StrongerAbsorbs(Tool, Trace, v, 0);
    ToolAfterTrace(v, 0);
  }

  /** n lists wrapped around a value. */
  function Nested(n: nat, v: Json): Json
  {
    if n == 0 then v else List([Nested(n - 1, v)])
  }

  lemma {:induction false} NestedReachesCut(n: nat, depth: nat)
    requires n + depth == MAX_DEPTH
    ensures SignatureAtCut(Nested(n, Object([Field(EXEMPT_KEY, Null)])), depth)
    decreases n
  {
    if n > 0 {
      NestedReachesCut(n - 1, depth + 1);
      assert Nested(n, Object([Field(EXEMPT_KEY, Null)])).items[0] == Nested(n - 1, Object([Field(EXEMPT_KEY, Null)]));
    } else {
      assert [Field(EXEMPT_KEY, Null)][0].key == EXEMPT_KEY;
    }
  }

  /** The exception is real: a signature eight lists deep. */
  lemma AbsorptionFailsAtCut()
    ensures var v := Nested(8, Object([Field(EXEMPT_KEY, Null)]));
            SafeToolValue(SafeTraceValue(v)) != SafeTraceValue(v)
  {
    NestedReachesCut(8, 0);
    RedactorsCompose(Nested(8, Object([Field(EXEMPT_KEY, Null)])));
  }
}
