/** The scanner of relation attributes, and the printed form it undoes. */
module RelationAttributes {
  import opened Wrappers
  import opened Literals

  datatype Attributes = Attributes(
    cascadeDelete: bool,
    cascadeNull: bool,
    lazy: bool,
    foreignKey: Option<string>,
    hasMany: Option<string>,
    hasOne: Option<string>,
    belongsTo: Option<string>)

  datatype Key = ForeignKey | HasMany | HasOne | BelongsTo

  datatype Directive = CascadeDelete | CascadeNull | Lazy | Eager | Indexed | Set(key: Key, value: string)

  function KeyToken(k: Key): string {
    match k
    case ForeignKey => "foreign_key"
    case HasMany => "has_many"
    case HasOne => "has_one"
    case BelongsTo => "belongs_to"
  }

  function KeyOf(token: string): (k: Option<Key>)
    ensures k.Some? ==> KeyToken(k.value) == token
  {
    if token == "foreign_key" then Some(ForeignKey)
    else if token == "has_many" then Some(HasMany)
    else if token == "has_one" then Some(HasOne)
    else if token == "belongs_to" then Some(BelongsTo)
    else None
  }

  function Put(attrs: Attributes, k: Key, value: string): Attributes {
    match k
    case ForeignKey => attrs.(foreignKey := Some(value))
    case HasMany => attrs.(hasMany := Some(value))
    case HasOne => attrs.(hasOne := Some(value))
    case BelongsTo => attrs.(belongsTo := Some(value))
  }

  // ---------------------------------------------------------------- string literals

  function Find(s: string, c: char): (i: Option<nat>)
    ensures i.Some? ==> i.value < |s| && s[i.value] == c && c !in s[..i.value]
    ensures i.None? ==> c !in s
  {
    if s == [] then None
    else if s[0] == c then Some(0)
    else
      var rest := Find(s[1..], c);
      if rest.None? then None
      else
        assert s[..rest.value + 1] == [s[0]] + s[1..][..rest.value];
        Some(rest.value + 1)
  }

  function FindLast(s: string, c: char): (i: Option<nat>)
    ensures i.Some? ==> i.value < |s| && s[i.value] == c && c !in s[i.value + 1..]
    ensures i.None? ==> c !in s
  {
    if s == [] then None
    else if s[|s| - 1] == c then Some(|s| - 1)
    else
      var before := FindLast(s[..|s| - 1], c);
      if before.None? then
        assert s == s[..|s| - 1] + [s[|s| - 1]];
        None
      else
        assert s[before.value + 1..] == s[..|s| - 1][before.value + 1..] + [s[|s| - 1]];
        before
  }

  /** The text between the first and the last double quote. */
  function ExtractStringValue(token: string): Option<string> {
    var start, end := Find(token, '"'), FindLast(token, '"');
    if start.Some? && end.Some? && start.value < end.value then Some(token[start.value + 1..end.value]) else None
  }

  predicate Plain(value: string) {
    forall i :: 0 <= i < |value| ==> !NeedsEscape(value[i])
  }

  lemma {:induction false} EscapeLengthens(value: string)
    ensures |Escape(value)| >= |value|
    ensures |Escape(value)| == |value| <==> Plain(value)
  {
    if value != [] {
      EscapeLengthens(value[1..]);
      assert Plain(value) <==> !NeedsEscape(value[0]) && Plain(value[1..]) by {
        assert value == [value[0]] + value[1..];
      }
    }
  }

  lemma {:induction false} PlainIsKept(value: string)
    requires Plain(value)
    ensures Escape(value) == value
  {
    if value != [] {
      PlainIsKept(value[1..]);
    }
  }

  /** What is read back from a printed literal is its spelling, escapes included. */
  lemma ExtractOfLiteral(value: string)
    ensures ExtractStringValue(PrintLiteral(value)) == Some(Escape(value))
  {
    var token := PrintLiteral(value);
    assert token[0] == '"' && token[|token| - 1] == '"';
  }

  lemma EscapeIsIdentityIff(value: string)
    ensures Escape(value) == value <==> Plain(value)
  {
    EscapeLengthens(value);
    if Plain(value) {
      PlainIsKept(value);
    }
  }

  /** A value is read back whole exactly when none of its characters needs an escape. */
  lemma ExtractOfLiteralIff(value: string)
    ensures ExtractStringValue(PrintLiteral(value)) == Some(value) <==> Plain(value)
  {
    ExtractOfLiteral(value);
    EscapeIsIdentityIff(value);
  }

  // ---------------------------------------------------------------- the scanner

  /** What the token at i does to the attributes, and where the scan goes on. */
  function ScanStep(attrs: Attributes, tokens: seq<string>, i: nat): (Attributes, nat)
    requires i < |tokens|
  {
    var token := tokens[i];
    if token == "cascade_delete" then (attrs.(cascadeDelete := true), i + 1)
    else if token == "cascade_null" then (attrs.(cascadeNull := true), i + 1)
    else if token == "lazy" then (attrs.(lazy := true), i + 1)
    else if token == "eager" then (attrs.(lazy := false), i + 1)
    else if KeyOf(token).Some? && i + 2 < |tokens| && tokens[i + 1] == "=" then
      var value := ExtractStringValue(tokens[i + 2]);
      (if value.Some? then Put(attrs, KeyOf(token).value, value.value) else attrs, i + 3)
    else (attrs, i + 1)
  }

  function ScanFrom(attrs: Attributes, tokens: seq<string>, i: nat): Attributes
    decreases |tokens| - i
  {
    if i >= |tokens| then attrs
    else
      var (after, next) := ScanStep(attrs, tokens, i);
      ScanFrom(after, tokens, next)
  }

  method ParseRelationAttributes(initial: Attributes, tokens: seq<string>) returns (attrs: Attributes)
    ensures attrs == ScanFrom(initial, tokens, 0)
  {
    attrs := initial;
    var i := 0;
    while i < |tokens|
      invariant ScanFrom(attrs, tokens, i) == ScanFrom(initial, tokens, 0)
      decreases |tokens| - i
    {
      var token := tokens[i];
      var start := i;
      ghost var before := attrs;
      if token == "cascade_delete" {
        attrs := attrs.(cascadeDelete := true);
      } else if token == "cascade_null" {
        attrs := attrs.(cascadeNull := true);
      } else if token == "lazy" {
        attrs := attrs.(lazy := true);
      } else if token == "eager" {
        attrs := attrs.(lazy := false);
      } else if KeyOf(token).Some? {
        if i + 2 < |tokens| && tokens[i + 1] == "=" {
          var value := ExtractStringValue(tokens[i + 2]);
          if value.Some? {
            attrs := Put(attrs, KeyOf(token).value, value.value);
          }
          i := i + 2;
        }
      }
      i := i + 1;
      assert (attrs, i) == ScanStep(before, tokens, start);
    }
  }

  // ---------------------------------------------------------------- printing and scanning back

  function DirectiveTokens(d: Directive): seq<string> {
    match d
    case CascadeDelete => ["cascade_delete"]
    case CascadeNull => ["cascade_null"]
    case Lazy => ["lazy"]
    case Eager => ["eager"]
    case Indexed => ["indexed"]
    case Set(k, value) => [KeyToken(k), "=", PrintLiteral(value)]
  }

  /** The directive the scanner sees: a value is its spelling in the literal. */
  function Spelled(d: Directive): Directive {
    if d.Set? then Set(d.key, Escape(d.value)) else d
  }

  function SpelledAll(directives: seq<Directive>): (spelled: seq<Directive>)
    ensures |spelled| == |directives|
    ensures forall j :: 0 <= j < |directives| ==> spelled[j] == Spelled(directives[j])
  {
    if directives == [] then [] else [Spelled(directives[0])] + SpelledAll(directives[1..])
  }

  /** The tokens of a list of directives, with a comma token between two directives. */
  function Print(directives: seq<Directive>): seq<string> {
    if directives == [] then []
    else if |directives| == 1 then DirectiveTokens(directives[0])
    else DirectiveTokens(directives[0]) + [","] + Print(directives[1..])
  }

  /** What one directive means, on its own. */
  function Effect(attrs: Attributes, d: Directive): Attributes {
    match d
    case CascadeDelete => attrs.(cascadeDelete := true)
    case CascadeNull => attrs.(cascadeNull := true)
    case Lazy => attrs.(lazy := true)
    case Eager => attrs.(lazy := false)
    case Indexed => attrs
    case Set(k, value) => Put(attrs, k, value)
  }

  /** The record of a list: later directives override earlier ones. */
  function Meaning(attrs: Attributes, directives: seq<Directive>): Attributes
    decreases directives
  {
    if directives == [] then attrs else Meaning(Effect(attrs, directives[0]), directives[1..])
  }

  lemma KeyOfToken(k: Key)
    ensures KeyOf(KeyToken(k)) == Some(k)
    ensures KeyToken(k) !in {"cascade_delete", "cascade_null", "lazy", "eager"}
  {
    match k
    case ForeignKey =>
    case HasMany =>
    case HasOne =>
    case BelongsTo =>
  }

  /** A one-word directive has its effect and takes one token. */
  lemma StepOfWord(attrs: Attributes, tokens: seq<string>, i: nat, d: Directive)
    requires i < |tokens| && !d.Set? && [tokens[i]] == DirectiveTokens(d)
    ensures ScanStep(attrs, tokens, i) == (Effect(attrs, d), i + 1)
  {
    assert DirectiveTokens(d) == [DirectiveTokens(d)[0]];
    match d
    case CascadeDelete =>
    case CascadeNull =>
    case Lazy =>
    case Eager =>
    case Indexed =>
  }

  /** A key with its value sets the key to the value's spelling and takes three tokens. */
  lemma StepOfSet(attrs: Attributes, tokens: seq<string>, i: nat, k: Key, value: string)
    requires i + 2 < |tokens|
    requires tokens[i] == KeyToken(k) && tokens[i + 1] == "=" && tokens[i + 2] == PrintLiteral(value)
    ensures ScanStep(attrs, tokens, i) == (Put(attrs, k, Escape(value)), i + 3)
  {
    ExtractOfLiteral(value);
    KeyOfToken(k);
  }

  lemma StepOfComma(attrs: Attributes, tokens: seq<string>, i: nat)
    requires i < |tokens| && tokens[i] == ","
    ensures ScanStep(attrs, tokens, i) == (attrs, i + 1)
  {
  }

  lemma StepOfDirective(attrs: Attributes, before: seq<string>, d: Directive, rest: seq<string>)
    ensures ScanStep(attrs, before + DirectiveTokens(d) + rest, |before|)
            == (Effect(attrs, Spelled(d)), |before| + |DirectiveTokens(d)|)
  {
    var tokens := before + DirectiveTokens(d) + rest;
    assert forall j :: 0 <= j < |DirectiveTokens(d)| ==> tokens[|before| + j] == DirectiveTokens(d)[j];
    if d.Set? {
      assert tokens[|before| + 1] == "=" && tokens[|before| + 2] == PrintLiteral(d.value);
      StepOfSet(attrs, tokens, |before|, d.key, d.value);
    } else {
      StepOfWord(attrs, tokens, |before|, d);
    }
  }

  lemma ScanLast(attrs: Attributes, before: seq<string>, d: Directive)
    ensures ScanFrom(attrs, before + DirectiveTokens(d), |before|) == Effect(attrs, Spelled(d))
  {
    StepOfDirective(attrs, before, d, []);
    assert before + DirectiveTokens(d) == before + DirectiveTokens(d) + [];
  }

  /** A directive and the comma after it. */
  lemma ScanOne(attrs: Attributes, before: seq<string>, d: Directive, rest: seq<string>)
    ensures var through := before + DirectiveTokens(d) + [","];
            ScanFrom(attrs, through + rest, |before|) == ScanFrom(Effect(attrs, Spelled(d)), through + rest, |through|)
  {
    var through := before + DirectiveTokens(d) + [","];
    StepOfDirective(attrs, before, d, [","] + rest);
    assert through + rest == before + DirectiveTokens(d) + ([","] + rest);
    StepOfComma(Effect(attrs, Spelled(d)), through + rest, |before| + |DirectiveTokens(d)|);
  }

  /** A list of two or more prints as its first directive, a comma and the rest. */
  lemma PrintSplits(before: seq<string>, directives: seq<Directive>)
    requires |directives| > 1
    ensures before + Print(directives)
            == (before + DirectiveTokens(directives[0]) + [","]) + Print(directives[1..])
  {
    var first, rest := DirectiveTokens(directives[0]), Print(directives[1..]);
    assert Print(directives) == first + [","] + rest;
    ConcatAssociates(before, first, [","], rest);
  }

  lemma ConcatAssociates(a: seq<string>, b: seq<string>, c: seq<string>, d: seq<string>)
    ensures a + (b + c + d) == a + b + c + d
  {
  }

  lemma {:induction false} ScanPrinted(attrs: Attributes, before: seq<string>, directives: seq<Directive>)
    ensures ScanFrom(attrs, before + Print(directives), |before|) == Meaning(attrs, SpelledAll(directives))
    decreases directives
  {
    if |directives| == 1 {
      ScanLast(attrs, before, directives[0]);
      assert SpelledAll(directives)[1..] == [];
    } else if |directives| > 1 {
      var d, others := directives[0], directives[1..];
      var through := before + DirectiveTokens(d) + [","];
      ScanOne(attrs, before, d, Print(others));
      PrintSplits(before, directives);
      ScanPrinted(Effect(attrs, Spelled(d)), through, others);
      assert SpelledAll(directives)[1..] == SpelledAll(others);
    }
  }

  /** Scanning the printed form of any list gives the record the list means, with each value spelled out. */
  lemma ScanReadsSpelling(attrs: Attributes, directives: seq<Directive>)
    ensures ScanFrom(attrs, Print(directives), 0) == Meaning(attrs, SpelledAll(directives))
  {
    ScanPrinted(attrs, [], directives);
    assert [] + Print(directives) == Print(directives);
  }

  predicate SetsKey(d: Directive, k: Key) {
    d.Set? && d.key == k
  }

  function Get(attrs: Attributes, k: Key): Option<string> {
    match k
    case ForeignKey => attrs.foreignKey
    case HasMany => attrs.hasMany
    case HasOne => attrs.hasOne
    case BelongsTo => attrs.belongsTo
  }

  /** The last directive for a key wins, and only directives for that key matter. */
  lemma {:induction false} LastDirectiveWins(attrs: Attributes, directives: seq<Directive>, k: Key, last: nat)
    requires last < |directives| && SetsKey(directives[last], k)
    requires forall j :: last < j < |directives| ==> !SetsKey(directives[j], k)
    ensures Get(Meaning(attrs, directives), k) == Some(directives[last].value)
    decreases directives
  {
    if last == 0 {
      OtherDirectivesKeep(Effect(attrs, directives[0]), directives[1..], k);
    } else {
      LastDirectiveWins(Effect(attrs, directives[0]), directives[1..], k, last - 1);
    }
  }

  lemma {:induction false} OtherDirectivesKeep(attrs: Attributes, directives: seq<Directive>, k: Key)
    requires forall j :: 0 <= j < |directives| ==> !SetsKey(directives[j], k)
    ensures Get(Meaning(attrs, directives), k) == Get(attrs, k)
    decreases directives
  {
    if directives != [] {
      OtherDirectivesKeep(Effect(attrs, directives[0]), directives[1..], k);
    }
  }

  /** What each word does on its own. */
  lemma ReadsWords(attrs: Attributes)
    ensures ScanFrom(attrs, ["cascade_delete"], 0) == attrs.(cascadeDelete := true)
    ensures ScanFrom(attrs, ["cascade_null"], 0) == attrs.(cascadeNull := true)
    ensures ScanFrom(attrs, ["lazy"], 0) == attrs.(lazy := true)
    ensures ScanFrom(attrs, ["eager"], 0) == attrs.(lazy := false)
  {
  }

  lemma ReadsKey(attrs: Attributes, k: Key, value: string)
    ensures ScanFrom(attrs, [KeyToken(k), "=", PrintLiteral(value)], 0) == Put(attrs, k, Escape(value))
  {
    StepOfSet(attrs, [KeyToken(k), "=", PrintLiteral(value)], 0, k, value);
  }

  /** What each key does with its value. */
  lemma ReadsKeys(attrs: Attributes, value: string)
    ensures ScanFrom(attrs, ["foreign_key", "=", PrintLiteral(value)], 0) == attrs.(foreignKey := Some(Escape(value)))
    ensures ScanFrom(attrs, ["has_many", "=", PrintLiteral(value)], 0) == attrs.(hasMany := Some(Escape(value)))
    ensures ScanFrom(attrs, ["has_one", "=", PrintLiteral(value)], 0) == attrs.(hasOne := Some(Escape(value)))
    ensures ScanFrom(attrs, ["belongs_to", "=", PrintLiteral(value)], 0) == attrs.(belongsTo := Some(Escape(value)))
  {
    ReadsKey(attrs, ForeignKey, value);
    ReadsKey(attrs, HasMany, value);
    ReadsKey(attrs, HasOne, value);
    ReadsKey(attrs, BelongsTo, value);
  }

  /** A token that is no key and no word is passed over, and so is a key that no value follows. */
  lemma PassesOver(attrs: Attributes, token: string, rest: seq<string>)
    requires token !in {"cascade_delete", "cascade_null", "lazy", "eager"}
    requires token !in {"foreign_key", "has_many", "has_one", "belongs_to"} || |rest| < 2 || rest[0] != "="
    ensures ScanFrom(attrs, [token] + rest, 0) == ScanFrom(attrs, rest, 0)
  {
    assert ScanStep(attrs, [token] + rest, 0) == (attrs, 1);
    ScanShifted(attrs, [token], rest, 0);
  }

  /** The value is what stands between the first quote and the last one. */
  lemma ExtractBetweenQuotes(a: string, value: string, b: string)
    requires '"' !in a && '"' !in b
    ensures ExtractStringValue(a + "\"" + value + "\"" + b) == Some(value)
  {
    var token := a + "\"" + value + "\"" + b;
    var start, end := |a|, |a| + 1 + |value|;
    assert token[start] == '"' && token[end] == '"';
    assert token[..start] == a && token[end + 1..] == b;
    FirstAndLast(token, start, end);
    assert token[start + 1..end] == value;
  }

  lemma FirstAndLast(token: string, start: nat, end: nat)
    requires start <= end < |token| && token[start] == '"' && token[end] == '"'
    requires '"' !in token[..start] && '"' !in token[end + 1..]
    ensures Find(token, '"') == Some(start) && FindLast(token, '"') == Some(end)
  {
    forall i | 0 <= i < |token|
      ensures i < start || i > end ==> token[i] != '"'
    {
      if i < start {
        assert token[i] == token[..start][i];
      } else if i > end {
        assert token[i] == token[end + 1..][i - end - 1];
      }
    }
    var first, last := Find(token, '"').value, FindLast(token, '"').value;
    forall i | 0 <= i < first
      ensures token[i] != '"'
    {
      assert token[i] == token[..first][i];
    }
    forall i | last < i < |token|
      ensures token[i] != '"'
    {
      assert token[i] == token[last + 1..][i - last - 1];
    }
  }

  /** A token without a second quote has no value, and a key that it follows keeps what it had. */
  lemma NoValue(attrs: Attributes, k: Key, token: string, rest: seq<string>)
    requires forall i, j :: 0 <= i < j < |token| ==> token[i] != '"' || token[j] != '"'
    ensures ExtractStringValue(token) == None
    ensures ScanFrom(attrs, [KeyToken(k), "=", token] + rest, 0) == ScanFrom(attrs, rest, 0)
  {
    KeyOfToken(k);
    var tokens := [KeyToken(k), "=", token] + rest;
    assert ScanStep(attrs, tokens, 0) == (attrs, 3);
    ScanShifted(attrs, [KeyToken(k), "=", token], rest, 0);
  }

  /** The scan sees only what lies ahead. */
  lemma {:induction false} ScanShifted(attrs: Attributes, before: seq<string>, rest: seq<string>, i: nat)
    ensures ScanFrom(attrs, before + rest, |before| + i) == ScanFrom(attrs, rest, i)
    decreases |rest| - i
  {
    if i < |rest| {
      var (after, next) := ScanStep(attrs, rest, i);
      assert forall j :: 0 <= j < |rest| ==> (before + rest)[|before| + j] == rest[j];
      assert ScanStep(attrs, before + rest, |before| + i) == (after, |before| + next);
      ScanShifted(after, before, rest, next);
    }
  }

  // ---------------------------------------------------------------- when scanning undoes printing

  predicate SameFlags(a: Attributes, b: Attributes) {
    a.cascadeDelete == b.cascadeDelete && a.cascadeNull == b.cascadeNull && a.lazy == b.lazy
  }

  lemma {:induction false} SpellingKeepsFlags(a: Attributes, b: Attributes, directives: seq<Directive>)
    requires SameFlags(a, b)
    ensures SameFlags(Meaning(a, directives), Meaning(b, SpelledAll(directives)))
    decreases directives
  {
    if directives != [] {
      var d := directives[0];
      assert SpelledAll(directives)[1..] == SpelledAll(directives[1..]);
      SpellingKeepsFlags(Effect(a, d), Effect(b, Spelled(d)), directives[1..]);
    }
  }

  /** The last directive for a key, if any. */
  function LastFor(directives: seq<Directive>, k: Key): (last: Option<nat>)
    ensures last.Some? ==> last.value < |directives| && SetsKey(directives[last.value], k)
    ensures last.Some? ==> forall j :: last.value < j < |directives| ==> !SetsKey(directives[j], k)
    ensures last.None? ==> forall j :: 0 <= j < |directives| ==> !SetsKey(directives[j], k)
  {
    if directives == [] then None
    else if SetsKey(directives[|directives| - 1], k) then Some(|directives| - 1)
    else LastFor(directives[..|directives| - 1], k)
  }

  /** The value a key ends up with, if the list sets it, needs no escape. */
  predicate PlainFor(directives: seq<Directive>, k: Key) {
    LastFor(directives, k).Some? ==> Plain(directives[LastFor(directives, k).value].value)
  }

  lemma KeyReadBackIff(attrs: Attributes, directives: seq<Directive>, k: Key)
    ensures Get(Meaning(attrs, SpelledAll(directives)), k) == Get(Meaning(attrs, directives), k) <==>
            PlainFor(directives, k)
  {
    var last := LastFor(directives, k);
    if last.Some? {
      LastDirectiveWins(attrs, directives, k, last.value);
      LastDirectiveWins(attrs, SpelledAll(directives), k, last.value);
      EscapeIsIdentityIff(directives[last.value].value);
    } else {
      OtherDirectivesKeep(attrs, directives, k);
      OtherDirectivesKeep(attrs, SpelledAll(directives), k);
    }
  }

  /**
    Scanning the printed form of a list gives exactly the record the list means if and only if the
    value each key ends up with needs no escape.
   */
  lemma ScanUndoesPrintIff(attrs: Attributes, directives: seq<Directive>)
    ensures ScanFrom(attrs, Print(directives), 0) == Meaning(attrs, directives) <==>
            forall k :: PlainFor(directives, k)
  {
    var scanned, meant := Meaning(attrs, SpelledAll(directives)), Meaning(attrs, directives);
    ScanReadsSpelling(attrs, directives);
    SpellingKeepsFlags(attrs, attrs, directives);
    forall k: Key
      ensures Get(scanned, k) == Get(meant, k) <==> PlainFor(directives, k)
    {
      KeyReadBackIff(attrs, directives, k);
    }
    SameWhenAllSame(scanned, meant);
  }

  lemma SameWhenAllSame(a: Attributes, b: Attributes)
    requires SameFlags(a, b)
    ensures a == b <==> forall k :: Get(a, k) == Get(b, k)
  {
    if forall k :: Get(a, k) == Get(b, k) {
      assert Get(a, ForeignKey) == Get(b, ForeignKey) && Get(a, HasMany) == Get(b, HasMany);
      assert Get(a, HasOne) == Get(b, HasOne) && Get(a, BelongsTo) == Get(b, BelongsTo);
    }
  }
}
