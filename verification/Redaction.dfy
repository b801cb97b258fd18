/** Redaction of audit data: secrets in nested objects and arrays are replaced before a change is logged. */
module Redaction {
  import opened Wrappers
  import Decimal

  /** Finite JSON data. The fields of an object are in the order of its keys. */
  datatype Json =
    | Null
    | Bool(value: bool)
    | Number(amount: real)
    | Text(text: string)
    | Array(items: seq<Json>)
    | Object(fields: seq<Field>)

  datatype Field = Field(key: string, content: Json)

  const REDACTED: Json := Text("[REDACTED]")

  const SENSITIVE_FIELDS: seq<string> := [
    "password", "passwordHash", "salt", "token", "refreshToken", "accessToken", "secret", "apiKey", "privateKey",
    "creditCard", "cvv", "ssn", "pin"]

  // ---------- Which keys are sensitive ----------

  predicate IsUpper(c: char) {
    'A' <= c <= 'Z'
  }

  /**
   `toLowerCase` of one character. The two characters outside ASCII whose lowercase holds an ASCII letter
   are spelled out: the Kelvin sign, and the dotted capital I, which gets a combining dot. The lowercase
   of any other is no ASCII letter either, so it stands for itself here.
   */
  function LowerChar(c: char): (r: string)
    ensures forall d | d in r :: !IsUpper(d)
  {
    if IsUpper(c) then ['a' + (c - 'A')]
    else if c == '\U{212A}' then "k"
    else if c == '\U{0130}' then "i\U{0307}"
    else [c]
  }

  function Lower(s: string): (r: string)
    ensures forall d | d in r :: !IsUpper(d)
  {
    if s == "" then "" else LowerChar(s[0]) + Lower(s[1..])
  }

  predicate MatchesAt(s: string, part: string, i: nat) {
    i + |part| <= |s| && s[i..i + |part|] == part
  }

  /** `includes`: `part` is a stretch of `s`. */
  predicate Contains(s: string, part: string) {
    exists i | 0 <= i <= |s| :: MatchesAt(s, part, i)
  }

  predicate Sensitive(key: string) {
    exists i | 0 <= i < |SENSITIVE_FIELDS| :: Contains(Lower(key), SENSITIVE_FIELDS[i])
  }

  lemma CapitalsNeverMatch(key: string, name: string, at: nat)
    requires at < |name| && IsUpper(name[at])
    ensures !Contains(Lower(key), name)
  {
  }

  /** The listed names without a capital letter. */
  predicate NamesASecret(lower: string) {
    || Contains(lower, "password") || Contains(lower, "salt") || Contains(lower, "token") || Contains(lower, "secret")
    || Contains(lower, "cvv") || Contains(lower, "ssn") || Contains(lower, "pin")
  }

  /** The key is lowercased but the list is not, so only the seven all-lowercase names ever match. */
  lemma SensitiveExactlyWhen(key: string)
    ensures Sensitive(key) <==> NamesASecret(Lower(key))
  {
    CapitalsNeverMatch(key, "passwordHash", 8);
    CapitalsNeverMatch(key, "refreshToken", 7);
    CapitalsNeverMatch(key, "accessToken", 6);
    CapitalsNeverMatch(key, "apiKey", 3);
    CapitalsNeverMatch(key, "privateKey", 7);
    CapitalsNeverMatch(key, "creditCard", 6);
    var lower := Lower(key);
    assert Sensitive(key) <==>
        || Contains(lower, SENSITIVE_FIELDS[0]) || Contains(lower, SENSITIVE_FIELDS[1])
        || Contains(lower, SENSITIVE_FIELDS[2]) || Contains(lower, SENSITIVE_FIELDS[3])
        || Contains(lower, SENSITIVE_FIELDS[4]) || Contains(lower, SENSITIVE_FIELDS[5])
        || Contains(lower, SENSITIVE_FIELDS[6]) || Contains(lower, SENSITIVE_FIELDS[7])
        || Contains(lower, SENSITIVE_FIELDS[8]) || Contains(lower, SENSITIVE_FIELDS[9])
        || Contains(lower, SENSITIVE_FIELDS[10]) || Contains(lower, SENSITIVE_FIELDS[11])
        || Contains(lower, SENSITIVE_FIELDS[12]);
  }

  /** `toUpperCase`, for ASCII letters. */
  function UpperChar(c: char): char {
    if 'a' <= c <= 'z' then 'A' + (c - 'a') else c
  }

  function Upper(s: string): string {
    if s == "" then "" else [UpperChar(s[0])] + Upper(s[1..])
  }

  /** An ASCII sign that is no capital letter. */
  predicate IsSmall(c: char) {
    c < '\U{0080}' && !IsUpper(c)
  }

  lemma LowerUndoesUpperOnce(c: char)
    requires IsSmall(c)
    ensures LowerChar(UpperChar(c)) == LowerChar(c) == [c]
  {
  }

  lemma LowerOfFirst(c: char, rest: string)
    ensures Lower([c] + rest) == LowerChar(c) + Lower(rest)
  {
    assert ([c] + rest)[1..] == rest;
  }

  /** Whether a key is written in small or in capital letters makes no difference. */
  lemma {:induction false} LowerUndoesUpper(s: string)
    requires forall i | 0 <= i < |s| :: IsSmall(s[i])
    ensures Lower(Upper(s)) == Lower(s) == s
  {
    if s != "" {
      LowerUndoesUpper(s[1..]);
      LowerUndoesUpperOnce(s[0]);
      LowerOfFirst(UpperChar(s[0]), Upper(s[1..]));
      assert s == [s[0]] + s[1..];
    }
  }

  predicate IsDigit(c: char) {
    '0' <= c <= '9'
  }

  lemma {:induction false} LowerKeepsDigits(s: string)
    requires forall c | c in s :: IsDigit(c)
    ensures Lower(s) == s
  {
    if s != "" {
      assert s[0] in s && forall c | c in s[1..] :: c in s;
      LowerKeepsDigits(s[1..]);
      assert s == [s[0]] + s[1..];
    }
  }

  lemma WithoutTheLetter(s: string, name: string, at: nat)
    requires at < |name| && name[at] !in s
    ensures !Contains(s, name)
  {
  }

  /** An array's indices are never sensitive, so redaction goes into every array. */
  lemma IndicesAreNotSensitive(i: nat)
    ensures !Sensitive(Decimal.Dec(i))
  {
    var key := Decimal.Digits(i);
    LowerKeepsDigits(key);
    SensitiveExactlyWhen(key);
    WithoutTheLetter(key, "password", 0);
    WithoutTheLetter(key, "salt", 0);
    WithoutTheLetter(key, "token", 0);
    WithoutTheLetter(key, "secret", 0);
    WithoutTheLetter(key, "cvv", 0);
    WithoutTheLetter(key, "ssn", 0);
    WithoutTheLetter(key, "pin", 0);
  }

  // ---------- The entries of a value ----------

  /** How many keys `Object.keys` gives. */
  function Size(j: Json): nat {
    if j.Array? then |j.items| else if j.Object? then |j.fields| else 0
  }

  function KeyAt(j: Json, i: nat): string
    requires i < Size(j)
  {
    if j.Array? then Decimal.Dec(i) else j.fields[i].key
  }

  function ValueAt(j: Json, i: nat): (v: Json)
    requires i < Size(j)
    ensures v < j
  {
    if j.Array? then j.items[i] else j.fields[i].content
  }

  /** A value with the same keys and other contents. */
  predicate SameKeys(a: Json, b: Json) {
    if a.Array? then b.Array? && |a.items| == |b.items|
    else if a.Object? then
      b.Object? && |a.fields| == |b.fields| && forall i | 0 <= i < |a.fields| :: a.fields[i].key == b.fields[i].key
    else a == b
  }

  lemma SameEntriesSameValue(a: Json, b: Json)
    requires SameKeys(a, b) && forall i | 0 <= i < Size(a) :: ValueAt(a, i) == ValueAt(b, i)
    ensures a == b
  {
    if a.Array? {
      assert forall i | 0 <= i < |a.items| :: a.items[i] == ValueAt(a, i) == ValueAt(b, i) == b.items[i];
    } else if a.Object? {
      forall i | 0 <= i < |a.fields|
        ensures a.fields[i] == b.fields[i]
      {
        assert ValueAt(a, i) == ValueAt(b, i);
      }
    }
  }

  // ---------- Redaction ----------

  function Sanitize(j: Json): (r: Json)
    ensures SameKeys(j, r)
    decreases j, 0
  {
    match j
    case Array(items) => Array(seq(|items|, i requires 0 <= i < |items| => SanitizeEntry(Decimal.Dec(i), items[i])))
    case Object(fields) =>
      Object(seq(|fields|, i requires 0 <= i < |fields| =>
        Field(fields[i].key, SanitizeEntry(fields[i].key, fields[i].content))))
    case _ => j
  }

  function SanitizeEntry(key: string, value: Json): Json
    decreases value, 1
  {
    if Sensitive(key) then REDACTED else Sanitize(value)
  }

  lemma SanitizedEntry(j: Json, i: nat)
    requires i < Size(j)
    ensures KeyAt(Sanitize(j), i) == KeyAt(j, i)
    ensures ValueAt(Sanitize(j), i) == SanitizeEntry(KeyAt(j, i), ValueAt(j, i))
  {
  }

  /** What JavaScript takes for false. */
  predicate Falsy(j: Json) {
    j.Null? || j == Bool(false) || j == Number(0.0) || j == Text("")
  }

  /** One side of a change: dropped if there is nothing in it. */
  function SanitizeSide(side: Option<Json>): Option<Json> {
    if side.None? || Falsy(side.value) then None else Some(Sanitize(side.value))
  }

  /** A side is dropped exactly when it is missing, null, false, zero or empty text, and redacted otherwise. */
  lemma SidesAreKeptExactly(side: Option<Json>)
    ensures SanitizeSide(side) == None <==>
            side == None || side.value in {Json.Null, Bool(false), Number(0.0), Text("")}
    ensures SanitizeSide(side).Some? ==> side.Some? && SanitizeSide(side).value == Sanitize(side.value)
  {
  }

  // ---------- What redaction does, at every depth ----------

  /** Steps from a value into its entries. */
  predicate ValidPath(j: Json, path: seq<nat>) {
    path == [] || (path[0] < Size(j) && ValidPath(ValueAt(j, path[0]), path[1..]))
  }

  function At(j: Json, path: seq<nat>): Json
    requires ValidPath(j, path)
  {
    if path == [] then j else At(ValueAt(j, path[0]), path[1..])
  }

  /** Some key on the way is sensitive. */
  predicate ThroughSecret(j: Json, path: seq<nat>)
    requires ValidPath(j, path)
  {
    path != [] && (Sensitive(KeyAt(j, path[0])) || ThroughSecret(ValueAt(j, path[0]), path[1..]))
  }

  /** The value a path without secrets leads to keeps its shape, and is unchanged if it is no container. */
  lemma {:induction false} OutsideSecretsNothingChanges(j: Json, path: seq<nat>)
    requires ValidPath(j, path) && !ThroughSecret(j, path)
    ensures ValidPath(Sanitize(j), path)
    ensures SameKeys(At(j, path), At(Sanitize(j), path))
  {
    if path != [] {
      SanitizedEntry(j, path[0]);
      OutsideSecretsNothingChanges(ValueAt(j, path[0]), path[1..]);
    }
  }

  /** Every value under a sensitive key, at any depth, becomes the marker. */
  lemma {:induction false} SecretsBecomeTheMarker(j: Json, path: seq<nat>, i: nat)
    requires ValidPath(j, path) && !ThroughSecret(j, path)
    requires i < Size(At(j, path)) && Sensitive(KeyAt(At(j, path), i))
    ensures ValidPath(Sanitize(j), path + [i]) && At(Sanitize(j), path + [i]) == REDACTED
  {
    if path == [] {
      SanitizedEntry(j, i);
      assert ([] + [i])[1..] == [];
    } else {
      SanitizedEntry(j, path[0]);
      SecretsBecomeTheMarker(ValueAt(j, path[0]), path[1..], i);
      assert (path + [i])[1..] == path[1..] + [i];
    }
  }

  /** Nothing is under a sensitive key but the marker. */
  predicate Clean(j: Json)
    decreases j
  {
    forall i | 0 <= i < Size(j) ::
      if Sensitive(KeyAt(j, i)) then ValueAt(j, i) == REDACTED else Clean(ValueAt(j, i))
  }

  lemma {:induction false} SanitizedIsClean(j: Json)
    ensures Clean(Sanitize(j))
    decreases j
  {
    var r := Sanitize(j);
    forall i | 0 <= i < Size(r)
      ensures if Sensitive(KeyAt(r, i)) then ValueAt(r, i) == REDACTED else Clean(ValueAt(r, i))
    {
      SanitizedEntry(j, i);
      SanitizedIsClean(ValueAt(j, i));
    }
  }

  /** Redaction leaves a value alone exactly when there is nothing to redact. */
  lemma {:induction false} UnchangedExactlyWhenClean(j: Json)
    ensures Sanitize(j) == j <==> Clean(j)
    decreases j
  {
    forall i | 0 <= i < Size(j)
      ensures ValueAt(Sanitize(j), i) == ValueAt(j, i) <==>
              if Sensitive(KeyAt(j, i)) then ValueAt(j, i) == REDACTED else Clean(ValueAt(j, i))
    {
      SanitizedEntry(j, i);
      UnchangedExactlyWhenClean(ValueAt(j, i));
    }
    if Clean(j) {
      SameEntriesSameValue(Sanitize(j), j);
    }
  }

  /** Redacting twice is redacting once. */
  lemma Idempotent(j: Json)
    ensures Sanitize(Sanitize(j)) == Sanitize(j)
  {
    SanitizedIsClean(j);
    UnchangedExactlyWhenClean(Sanitize(j));
  }

  /** Two values differ at most under sensitive keys. */
  predicate AgreeOutsideSecrets(a: Json, b: Json)
    decreases a
  {
    SameKeys(a, b)
    && forall i | 0 <= i < Size(a) :: Sensitive(KeyAt(a, i)) || AgreeOutsideSecrets(ValueAt(a, i), ValueAt(b, i))
  }

  /** The redacted form tells two values apart exactly when they differ outside their secrets. */
  lemma {:induction false} SanitizedAlikeExactlyWhen(a: Json, b: Json)
    ensures Sanitize(a) == Sanitize(b) <==> AgreeOutsideSecrets(a, b)
    decreases a
  {
    if SameKeys(a, b) {
      forall i | 0 <= i < Size(a)
        ensures ValueAt(Sanitize(a), i) == ValueAt(Sanitize(b), i) <==>
                Sensitive(KeyAt(a, i)) || AgreeOutsideSecrets(ValueAt(a, i), ValueAt(b, i))
      {
        SanitizedEntry(a, i);
        SanitizedEntry(b, i);
        SanitizedAlikeExactlyWhen(ValueAt(a, i), ValueAt(b, i));
      }
      if AgreeOutsideSecrets(a, b) {
        SameEntriesSameValue(Sanitize(a), Sanitize(b));
      }
    } else {
      assert SameKeys(a, Sanitize(a)) && SameKeys(b, Sanitize(b));
    }
  }
}
