/**
 The canonical archive key: a printed form that identifies exactly what the key identifies.
 Texts are sequences of ASCII characters.
 */
module ArchiveKeys {
  import opened Wrappers

  datatype Namespace = SourceAsset | GeneratedMetadata | PostProcessingAction

  datatype Level = Item | Representation | Track | Asset | DerivedOutput

  datatype Identity = Identity(level: Level, id: string)

  datatype ArchiveKey = ArchiveKey(
    schema: SchemaVersion,
    namespace: Namespace,
    identity: Identity,
    identityRuleVersion: nat,
    extractorId: string)

  function NamespaceName(n: Namespace): string {
    match n
    case SourceAsset => "source_asset"
    case GeneratedMetadata => "generated_metadata"
    case PostProcessingAction => "post_processing_action"
  }

  function LevelName(l: Level): string {
    match l
    case Item => "item"
    case Representation => "representation"
    case Track => "track"
    case Asset => "asset"
    case DerivedOutput => "derived_output"
  }

  // ---------------------------------------------------------------------------
  // Validation

  datatype KeyError =
    | UnsupportedSchema(received: SchemaVersion)
    | ZeroRuleVersion
    | EmptyExtractor
    | ExtractorTooLong(actual: nat, maximum: nat)
    | InvalidExtractor

  predicate ComponentChar(c: char) {
    'a' <= c <= 'z' || '0' <= c <= '9' || c == '_' || c == '-' || c == '.'
  }

  predicate Component(text: string) {
    forall i :: 0 <= i < |text| ==> ComponentChar(text[i])
  }

  function Validate(key: ArchiveKey, maximumTextBytes: nat): Result<(), KeyError> {
    if key.schema.major != 1 then Err(UnsupportedSchema(key.schema))
    else if key.identityRuleVersion == 0 then Err(ZeroRuleVersion)
    else if key.extractorId == "" then Err(EmptyExtractor)
    else if |key.extractorId| > maximumTextBytes then Err(ExtractorTooLong(|key.extractorId|, maximumTextBytes))
    else if !Component(key.extractorId) then Err(InvalidExtractor)
    else Ok(())
  }

  // ---------------------------------------------------------------------------
  // Printing

  function Digit(n: nat): char
    requires n < 10
  {
    "0123456789"[n]
  }

  function Decimal(n: nat): string {
    if n < 10 then [Digit(n)] else Decimal(n / 10) + [Digit(n % 10)]
  }

  function Print(key: ArchiveKey): string {
    "archive-identity-v" + (Decimal(key.identityRuleVersion) + "|" + (NamespaceName(key.namespace) + "|"
    + (LevelName(key.identity.level) + "|" + (key.extractorId + "|" + key.identity.id))))
  }

  function CanonicalKey(key: ArchiveKey, maximumTextBytes: nat): Result<string, KeyError> {
    var valid := Validate(key, maximumTextBytes);
    if valid.Err? then Err(valid.error) else Ok(Print(key))
  }

  // ---------------------------------------------------------------------------
  // Reading back

  function DigitValue(c: char): nat
    requires '0' <= c <= '9'
  {
    c as nat - '0' as nat
  }

  predicate Digits(s: string) {
    forall i :: 0 <= i < |s| ==> '0' <= s[i] <= '9'
  }

  function Number(s: string): nat
    requires Digits(s)
  {
    if s == "" then 0 else Number(s[..|s| - 1]) * 10 + DigitValue(s[|s| - 1])
  }

  lemma DigitReadsBack(n: nat)
    requires n < 10
    ensures '0' <= Digit(n) <= '9' && DigitValue(Digit(n)) == n
  {
  }

  lemma NumberAppend(s: string, c: char)
    requires Digits(s) && '0' <= c <= '9'
    ensures Digits(s + [c]) && Number(s + [c]) == Number(s) * 10 + DigitValue(c)
  {
    assert (s + [c])[..|s|] == s;
  }

  lemma {:induction false} DecimalReadsBack(n: nat)
    ensures Digits(Decimal(n)) && Number(Decimal(n)) == n
  {
    hide Digit, DigitValue;
    if n < 10 {
      DigitReadsBack(n);
      NumberAppend("", Digit(n));
      assert "" + [Digit(n)] == [Digit(n)];
    } else {
      DecimalReadsBack(n / 10);
      DigitReadsBack(n % 10);
      NumberAppend(Decimal(n / 10), Digit(n % 10));
    }
  }

  predicate NoBar(s: string) {
    forall i :: 0 <= i < |s| ==> s[i] != '|'
  }

  lemma NoBarWithin(a: string, x: string, i: nat)
    requires NoBar(a) && i < |a|
    ensures (a + "|" + x)[i] != '|'
  {
  }

  /** A separator that neither part contains splits a text in one way only. */
  lemma {:induction false} SplitOnce(a: string, x: string, b: string, y: string)
    requires NoBar(a) && NoBar(b) && a + "|" + x == b + "|" + y
    ensures a == b && x == y
  {
    if |a| < |b| {
      NoBarWithin(b, y, |a|);
      assert false;
    }
    if |b| < |a| {
      NoBarWithin(a, x, |b|);
      assert false;
    }
    var s := a + "|" + x;
    assert a == s[..|a|] && b == s[..|b|];
    assert x == s[|a| + 1..] && y == s[|b| + 1..];
  }

  lemma ComponentHasNoBar(s: string)
    requires Component(s)
    ensures NoBar(s)
  {
    forall i | 0 <= i < |s| ensures s[i] != '|' {
      assert ComponentChar(s[i]);
    }
  }

  lemma DigitsHaveNoBar(s: string)
    requires Digits(s)
    ensures NoBar(s)
  {
  }

  lemma NamespaceNamesDiffer(n: Namespace, m: Namespace)
    requires NamespaceName(n) == NamespaceName(m)
    ensures n == m
  {
    assert |NamespaceName(n)| == |NamespaceName(m)|;
  }

  lemma LevelNamesDiffer(l: Level, m: Level)
    requires LevelName(l) == LevelName(m)
    ensures l == m
  {
    assert |LevelName(l)| == |LevelName(m)| && LevelName(l)[0] == LevelName(m)[0];
  }

  lemma NamesHaveNoBar(n: Namespace, l: Level)
    ensures NoBar(NamespaceName(n)) && NoBar(LevelName(l))
  {
    match n {
      case SourceAsset => assert NoBar("source_asset");
      case GeneratedMetadata => assert NoBar("generated_metadata");
      case PostProcessingAction => assert NoBar("post_processing_action");
    }
    match l {
      case Item => assert NoBar("item");
      case Representation => assert NoBar("representation");
      case Track => assert NoBar("track");
      case Asset => assert NoBar("asset");
      case DerivedOutput => assert NoBar("derived_output");
    }
  }

  predicate SameIdentity(a: ArchiveKey, b: ArchiveKey) {
    && a.namespace == b.namespace
    && a.identity == b.identity
    && a.identityRuleVersion == b.identityRuleVersion
    && a.extractorId == b.extractorId
  }

  /**
   Canonical keys are injective: two keys that validate print the same if and only if they
   agree on namespace, identity level and identifier, rule version and extractor, whatever
   their schema minor versions and whatever text bound each was validated with. The identifier
   comes last, so nothing need be known about its characters.
   */
  lemma CanonicalKeysIdentify(a: ArchiveKey, b: ArchiveKey, limitA: nat, limitB: nat)
    requires CanonicalKey(a, limitA).Ok? && CanonicalKey(b, limitB).Ok?
    ensures CanonicalKey(a, limitA) == CanonicalKey(b, limitB) <==> SameIdentity(a, b)
  {
    if Print(a) == Print(b) {
      SamePrintSameIdentity(a, b);
    }
  }

  lemma SamePrintSameIdentity(a: ArchiveKey, b: ArchiveKey)
    requires Component(a.extractorId) && Component(b.extractorId) && Print(a) == Print(b)
    ensures SameIdentity(a, b)
  {
    var lead := "archive-identity-v";
    var tailA := a.extractorId + "|" + a.identity.id;
    var tailB := b.extractorId + "|" + b.identity.id;
    var levelA := LevelName(a.identity.level) + "|" + tailA;
    var levelB := LevelName(b.identity.level) + "|" + tailB;
    var nameA := NamespaceName(a.namespace) + "|" + levelA;
    var nameB := NamespaceName(b.namespace) + "|" + levelB;
    var numberA := Decimal(a.identityRuleVersion) + "|" + nameA;
    var numberB := Decimal(b.identityRuleVersion) + "|" + nameB;
    assert Print(a)[|lead|..] == numberA && Print(b)[|lead|..] == numberB;
    hide Decimal, NamespaceName, LevelName, Component;
    DecimalReadsBack(a.identityRuleVersion);
    DecimalReadsBack(b.identityRuleVersion);
    DigitsHaveNoBar(Decimal(a.identityRuleVersion));
    DigitsHaveNoBar(Decimal(b.identityRuleVersion));
    NamesHaveNoBar(a.namespace, a.identity.level);
    NamesHaveNoBar(b.namespace, b.identity.level);
    ComponentHasNoBar(a.extractorId);
    ComponentHasNoBar(b.extractorId);
    hide NoBar, Number, Digits;
    SplitOnce(Decimal(a.identityRuleVersion), nameA, Decimal(b.identityRuleVersion), nameB);
    SplitOnce(NamespaceName(a.namespace), levelA, NamespaceName(b.namespace), levelB);
    SplitOnce(LevelName(a.identity.level), tailA, LevelName(b.identity.level), tailB);
    SplitOnce(a.extractorId, a.identity.id, b.extractorId, b.identity.id);
    NamespaceNamesDiffer(a.namespace, b.namespace);
    LevelNamesDiffer(a.identity.level, b.identity.level);
  }

  // ---------------------------------------------------------------------------
  // The canonical text

  /** A number in digits, most significant first, without leading zeros. */
  predicate PlainDecimal(s: string, n: nat) {
    s != "" && Digits(s) && Number(s) == n && (s[0] == '0' ==> s == "0")
  }

  lemma {:induction false} DecimalIsPlain(n: nat)
    ensures PlainDecimal(Decimal(n), n) && (n > 0 ==> Decimal(n)[0] != '0')
  {
    DecimalReadsBack(n);
    if n >= 10 {
      DecimalIsPlain(n / 10);
      assert Decimal(n)[0] == Decimal(n / 10)[0];
    }
    hide Number;
  }

  /** A number without leading zeros is written in one way only. */
  lemma {:induction false} PlainIsDecimal(s: string, n: nat)
    requires PlainDecimal(s, n)
    ensures s == Decimal(n)
    decreases |s|
  {
    var (front, last) := (s[..|s| - 1], s[|s| - 1]);
    assert s == front + [last] && Digits(front) && '0' <= last <= '9';
    assert Number(s) == Number(front) * 10 + DigitValue(last);
    assert Digit(DigitValue(last)) == last;
    if front != "" {
      assert front[0] == s[0] != '0';
      PlainIsDecimal(front, Number(front));
      PositiveNumber(front);
      assert n / 10 == Number(front) && n % 10 == DigitValue(last);
    } else {
      assert Number(front) == 0;
    }
  }

  lemma {:induction false} PositiveNumber(s: string)
    requires s != "" && Digits(s) && s[0] != '0'
    ensures Number(s) > 0
  {
    if |s| > 1 {
      PositiveNumber(s[..|s| - 1]);
    }
  }

  /** The names of a namespace and a level. */
  predicate Named(key: ArchiveKey, namespace: string, level: string) {
    && (namespace, key.namespace) in [
         ("source_asset", SourceAsset), ("generated_metadata", GeneratedMetadata),
         ("post_processing_action", PostProcessingAction)]
    && (level, key.identity.level) in [
         ("item", Item), ("representation", Representation), ("track", Track), ("asset", Asset),
         ("derived_output", DerivedOutput)]
  }

  /**
   The canonical text in full: a key has one exactly when its schema and rule version are
   supported and its extractor is a short enough component, and the text is the rule version,
   namespace, level, extractor and identifier, joined by bars.
   */
  lemma CanonicalText(key: ArchiveKey, limit: nat, version: string, namespace: string, level: string, text: string)
    requires PlainDecimal(version, key.identityRuleVersion) && Named(key, namespace, level)
    ensures CanonicalKey(key, limit) == Ok(text) <==>
              && key.schema.major == 1 && key.identityRuleVersion > 0
              && 0 < |key.extractorId| <= limit && Component(key.extractorId)
              && text == "archive-identity-v" + version + "|" + namespace + "|" + level + "|" + key.extractorId + "|"
                         + key.identity.id
  {
    hide Component, Named, NamespaceName, LevelName, PlainDecimal, Decimal;
    PlainIsDecimal(version, key.identityRuleVersion);
    NamedIsName(key, namespace, level);
    JoinInOrder("archive-identity-v", version, namespace, level, key.extractorId, key.identity.id);
  }

  lemma NamedIsName(key: ArchiveKey, namespace: string, level: string)
    requires Named(key, namespace, level)
    ensures namespace == NamespaceName(key.namespace) && level == LevelName(key.identity.level)
  {
  }

  lemma JoinInOrder(a: string, b: string, c: string, d: string, e: string, f: string)
    ensures a + (b + "|" + (c + "|" + (d + "|" + (e + "|" + f)))) ==
            a + b + "|" + c + "|" + d + "|" + e + "|" + f
  {
  }

  /** Every key has a version text and names, so the canonical text is defined for all of them. */
  lemma EveryKeyHasNames(key: ArchiveKey)
    ensures PlainDecimal(Decimal(key.identityRuleVersion), key.identityRuleVersion)
    ensures Named(key, NamespaceName(key.namespace), LevelName(key.identity.level))
  {
    DecimalIsPlain(key.identityRuleVersion);
    hide PlainDecimal;
  }
}
