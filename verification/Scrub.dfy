/** The redactor every BMC read passes through: secrets, people and logged-in users
    leave a payload, nothing else does. */
module Scrub {
  import opened Json
  import opened Lex
  import opened Payload

  const SCRUBBED := "***scrubbed***"

  // The lower-cased leaf names each rule goes by, and the rewriting of URLs.
  datatype Rules = Rules(
    secretNames: set<string>,
    personKeys: set<string>,
    userNameKeys: set<string>,
    countOnlyKeys: set<string>,
    rewriteUrls: string -> string)

  const SECRET_NAMES: set<string> := {
    "password", "passphrase", "secret", "clientsecret", "privatekey", "authenticationkey", "encryptionkey",
    "communitynames", "communitystring", "trapcommunity", "licensestring", "certificatestring", "bytes",
    "sshpublickey", "sed_ak", "bmu_credential", "oauthservicesigningkeys", "chapsecret", "mutualchapsecret",
    "httpheaders", "jsonbody", "token", "kerberoskeytab", "secretkey"}

  const USER_NAME_KEYS: set<string> := {
    "username", "userid", "loginid", "createdby", "owner", "chapusername", "mutualchapusername", "clientdn"}

  const PERSON_KEYS: set<string> := {
    "contactname", "contactperson", "emailaddress", "phonenumber", "remoteuser", "onetimepasscodedeliveryaddress",
    "email"}

  const COUNT_ONLY_KEYS: set<string> := {"currentloggedusers"}

  // The rules of the module, for some rewriting of URLs.
  function RedfishRules(rewriteUrls: string -> string): Rules {
    Rules(SECRET_NAMES, PERSON_KEYS, USER_NAME_KEYS, COUNT_ONLY_KEYS, rewriteUrls)
  }

  predicate EndsWith(s: string, suffix: string) {
    |suffix| <= |s| && s[|s| - |suffix|..] == suffix
  }

  predicate IsNumberOrBool(v: Json) { v.Num? || v.Bool? }

  // `_is_secret`
  predicate IsSecret(key: string, value: Json, rules: Rules) {
    '@' !in key
    && (Lower(key) in rules.secretNames || (EndsWith(Lower(key), "password") && !IsNumberOrBool(value)))
  }

  // `_scrub_value`
  function ScrubValue(v: Json): Json
    decreases v, 1
  {
    if Empty(v) then v else if v.List? then List(ScrubValues(v.items)) else Str(SCRUBBED)
  }

  function ScrubValues(items: seq<Json>): (r: seq<Json>)
    ensures |r| == |items|
    decreases items, 0
  {
    if items == [] then [] else [ScrubValue(items[0])] + ScrubValues(items[1..])
  }

  // The leaf is masked whole: a secret, a person, or a user name that is not kept.
  predicate Masked(key: string, value: Json, keepUserNames: bool, rules: Rules) {
    || IsSecret(key, value, rules) || Lower(key) in rules.personKeys
    || (Lower(key) in rules.userNameKeys && !keepUserNames)
  }

  predicate Counted(key: string, value: Json, rules: Rules) {
    Lower(key) in rules.countOnlyKeys && value.List?
  }

  function Marks(n: nat): seq<Json> { seq(n, _ => Str(SCRUBBED)) }

  predicate HasScheme(s: string)
    decreases s
  {
    "://" <= s || (s != "" && HasScheme(s[1..]))
  }

  function ScrubText(s: string, rules: Rules): string {
    if HasScheme(s) then rules.rewriteUrls(s) else s
  }

  // `_scrub_payload`
  function ScrubPayload(node: Json, keepUserNames: bool, rules: Rules): Json
    decreases node, 1
  {
    match node
    case Dict(fields) => Dict(ScrubFields(fields, keepUserNames, rules))
    case List(items) => List(ScrubItems(items, keepUserNames, rules))
    case Str(s) => Str(ScrubText(s, rules))
    case _ => node
  }

  function ScrubItems(items: seq<Json>, keepUserNames: bool, rules: Rules): (r: seq<Json>)
    ensures |r| == |items|
    decreases items, 0
  {
    if items == [] then []
    else [ScrubPayload(items[0], keepUserNames, rules)] + ScrubItems(items[1..], keepUserNames, rules)
  }

  function ScrubField(key: string, value: Json, keepUserNames: bool, rules: Rules): Json
    decreases value, 2
  {
    if Masked(key, value, keepUserNames, rules) then ScrubValue(value)
    else if Counted(key, value, rules) then List(Marks(|value.items|))
    else ScrubPayload(value, keepUserNames, rules)
  }

  function ScrubFields(fields: seq<Field>, keepUserNames: bool, rules: Rules): (r: seq<Field>)
    ensures |r| == |fields|
    decreases fields, 0
  {
    if fields == [] then []
    else [Field(fields[0].key, ScrubField(fields[0].key, fields[0].value, keepUserNames, rules))]
         + ScrubFields(fields[1..], keepUserNames, rules)
  }

  // ----- what an observer of the scrubbed payload can tell apart ---------------------

  // Under a masked leaf only emptiness and the lengths of lists show.
  predicate SameOutline(a: Json, b: Json)
    decreases a, 1
  {
    if Empty(a) || Empty(b) then a == b
    else if a.List? || b.List? then a.List? && b.List? && SameOutlines(a.items, b.items)
    else true
  }

  predicate SameOutlines(a: seq<Json>, b: seq<Json>)
    decreases a, 0
  {
    |a| == |b| && (a == [] || (SameOutline(a[0], b[0]) && SameOutlines(a[1..], b[1..])))
  }

  // Payloads alike but for what is masked: the same trees, with the same keys in the
  // same order and, elsewhere, the same leaves up to the rewriting of URLs.
  predicate Alike(a: Json, b: Json, keepUserNames: bool, rules: Rules)
    decreases a, 1
  {
    match (a, b)
    case (Dict(fa), Dict(fb)) => AlikeFields(fa, fb, keepUserNames, rules)
    case (List(ia), List(ib)) => AlikeItems(ia, ib, keepUserNames, rules)
    case (Str(s), Str(t)) => ScrubText(s, rules) == ScrubText(t, rules)
    case _ => a == b
  }

  predicate AlikeItems(a: seq<Json>, b: seq<Json>, keepUserNames: bool, rules: Rules)
    decreases a, 0
  {
    && |a| == |b|
    && (a == [] || (Alike(a[0], b[0], keepUserNames, rules) && AlikeItems(a[1..], b[1..], keepUserNames, rules)))
  }

  predicate AlikeField(key: string, a: Json, b: Json, keepUserNames: bool, rules: Rules)
    decreases a, 2
  {
    if Masked(key, a, keepUserNames, rules) || Masked(key, b, keepUserNames, rules) then
      Masked(key, a, keepUserNames, rules) && Masked(key, b, keepUserNames, rules) && SameOutline(a, b)
    else if Counted(key, a, rules) || Counted(key, b, rules) then
      Counted(key, a, rules) && Counted(key, b, rules) && |a.items| == |b.items|
    else Alike(a, b, keepUserNames, rules)
  }

  predicate AlikeFields(a: seq<Field>, b: seq<Field>, keepUserNames: bool, rules: Rules)
    decreases a, 0
  {
    |a| == |b|
    && (a == [] || (a[0].key == b[0].key && AlikeField(a[0].key, a[0].value, b[0].value, keepUserNames, rules)
                    && AlikeFields(a[1..], b[1..], keepUserNames, rules)))
  }

  lemma {:induction false} OutlineIsScrubbedValue(a: Json, b: Json)
    ensures ScrubValue(a) == ScrubValue(b) <==> SameOutline(a, b)
    decreases a, 1
  {
    if a.List? && b.List? && !Empty(a) && !Empty(b) { OutlinesAreScrubbedValues(a.items, b.items); }
    if a.List? && !Empty(a) { assert ScrubValue(a).items != []; }
    if b.List? && !Empty(b) { assert ScrubValue(b).items != []; }
  }

  lemma {:induction false} OutlinesAreScrubbedValues(a: seq<Json>, b: seq<Json>)
    ensures ScrubValues(a) == ScrubValues(b) <==> SameOutlines(a, b)
    decreases a, 0
  {
    if |a| == |b| && a != [] {
      OutlineIsScrubbedValue(a[0], b[0]);
      OutlinesAreScrubbedValues(a[1..], b[1..]);
      var x, y := ScrubValues(a), ScrubValues(b);
      assert x[1..] == ScrubValues(a[1..]) && y[1..] == ScrubValues(b[1..]);
      assert x == [x[0]] + x[1..] && y == [y[0]] + y[1..];
    } else {
      assert |ScrubValues(a)| == |a| && |ScrubValues(b)| == |b|;
    }
  }

  // Two payloads scrub to the same payload exactly when they are alike: nothing masked
  // shows through, and nothing else is lost.
  lemma {:induction false} ScrubHidesExactly(a: Json, b: Json, keepUserNames: bool, rules: Rules)
    ensures ScrubPayload(a, keepUserNames, rules) == ScrubPayload(b, keepUserNames, rules)
       <==> Alike(a, b, keepUserNames, rules)
    decreases a, 1
  {
    match (a, b)
    case (Dict(fa), Dict(fb)) => ScrubFieldsHide(fa, fb, keepUserNames, rules);
    case (List(ia), List(ib)) => ScrubItemsHide(ia, ib, keepUserNames, rules);
    case _ =>
  }

  lemma {:induction false} ScrubItemsHide(a: seq<Json>, b: seq<Json>, keepUserNames: bool, rules: Rules)
    ensures ScrubItems(a, keepUserNames, rules) == ScrubItems(b, keepUserNames, rules)
       <==> AlikeItems(a, b, keepUserNames, rules)
    decreases a, 0
  {
    if |a| == |b| && a != [] {
      ScrubHidesExactly(a[0], b[0], keepUserNames, rules);
      ScrubItemsHide(a[1..], b[1..], keepUserNames, rules);
      var x, y := ScrubItems(a, keepUserNames, rules), ScrubItems(b, keepUserNames, rules);
      assert x[1..] == ScrubItems(a[1..], keepUserNames, rules) && y[1..] == ScrubItems(b[1..], keepUserNames, rules);
      assert x == [x[0]] + x[1..] && y == [y[0]] + y[1..];
    } else {
      assert |ScrubItems(a, keepUserNames, rules)| == |a| && |ScrubItems(b, keepUserNames, rules)| == |b|;
    }
  }

  lemma {:induction false} ScrubFieldsHide(a: seq<Field>, b: seq<Field>, keepUserNames: bool, rules: Rules)
    ensures ScrubFields(a, keepUserNames, rules) == ScrubFields(b, keepUserNames, rules)
       <==> AlikeFields(a, b, keepUserNames, rules)
    decreases a, 0
  {
    if |a| == |b| && a != [] {
      if a[0].key == b[0].key { ScrubFieldHides(a[0].key, a[0].value, b[0].value, keepUserNames, rules); }
      ScrubFieldsHide(a[1..], b[1..], keepUserNames, rules);
      var x, y := ScrubFields(a, keepUserNames, rules), ScrubFields(b, keepUserNames, rules);
      assert x[1..] == ScrubFields(a[1..], keepUserNames, rules) && y[1..] == ScrubFields(b[1..], keepUserNames, rules);
      assert x == [x[0]] + x[1..] && y == [y[0]] + y[1..];
    } else {
      assert |ScrubFields(a, keepUserNames, rules)| == |a| && |ScrubFields(b, keepUserNames, rules)| == |b|;
    }
  }

  lemma {:induction false} ScrubFieldHides(key: string, a: Json, b: Json, keepUserNames: bool, rules: Rules)
    ensures ScrubField(key, a, keepUserNames, rules) == ScrubField(key, b, keepUserNames, rules)
       <==> AlikeField(key, a, b, keepUserNames, rules)
    decreases a, 2
  {
    var ma, mb := Masked(key, a, keepUserNames, rules), Masked(key, b, keepUserNames, rules);
    if ma && mb {
      OutlineIsScrubbedValue(a, b);
    } else if ma || mb {
      // Only a number or boolean under a name ending in "password" escapes the mask.
      assert IsNumberOrBool(a) || IsNumberOrBool(b);
    } else if Counted(key, a, rules) && Counted(key, b, rules) {
      assert |Marks(|a.items|)| == |a.items| && |Marks(|b.items|)| == |b.items|;
    } else if !Counted(key, a, rules) && !Counted(key, b, rules) {
      ScrubHidesExactly(a, b, keepUserNames, rules);
    }
  }

  // ----- scrubbing twice ---------------------------------------------------------------

  ghost predicate Idempotent(f: string -> string) {
    forall s :: f(f(s)) == f(s)
  }

  lemma {:induction false} ScrubbedValueOutline(v: Json)
    ensures SameOutline(ScrubValue(v), v)
    decreases v, 1
  {
    if v.List? && !Empty(v) { ScrubbedValuesOutline(v.items); assert ScrubValue(v).items != []; }
  }

  lemma {:induction false} ScrubbedValuesOutline(items: seq<Json>)
    ensures SameOutlines(ScrubValues(items), items)
    decreases items, 0
  {
    if items != [] {
      ScrubbedValueOutline(items[0]);
      ScrubbedValuesOutline(items[1..]);
      assert ScrubValues(items)[1..] == ScrubValues(items[1..]);
    }
  }

  // A scrubbed payload is alike the payload it came from.
  lemma {:induction false} ScrubbedIsAlike(node: Json, keepUserNames: bool, rules: Rules)
    requires Idempotent(rules.rewriteUrls)
    ensures Alike(ScrubPayload(node, keepUserNames, rules), node, keepUserNames, rules)
    decreases node, 1
  {
    match node
    case Dict(fields) => ScrubbedFieldsAlike(fields, keepUserNames, rules);
    case List(items) => ScrubbedItemsAlike(items, keepUserNames, rules);
    case Str(s) => assert rules.rewriteUrls(rules.rewriteUrls(s)) == rules.rewriteUrls(s);
    case _ =>
  }

  lemma {:induction false} ScrubbedItemsAlike(items: seq<Json>, keepUserNames: bool, rules: Rules)
    requires Idempotent(rules.rewriteUrls)
    ensures AlikeItems(ScrubItems(items, keepUserNames, rules), items, keepUserNames, rules)
    decreases items, 0
  {
    if items != [] {
      ScrubbedIsAlike(items[0], keepUserNames, rules);
      ScrubbedItemsAlike(items[1..], keepUserNames, rules);
      assert ScrubItems(items, keepUserNames, rules)[1..] == ScrubItems(items[1..], keepUserNames, rules);
    }
  }

  lemma {:induction false} ScrubbedFieldsAlike(fields: seq<Field>, keepUserNames: bool, rules: Rules)
    requires Idempotent(rules.rewriteUrls)
    ensures AlikeFields(ScrubFields(fields, keepUserNames, rules), fields, keepUserNames, rules)
    decreases fields, 0
  {
    if fields != [] {
      ScrubbedFieldAlike(fields[0].key, fields[0].value, keepUserNames, rules);
      ScrubbedFieldsAlike(fields[1..], keepUserNames, rules);
      assert ScrubFields(fields, keepUserNames, rules)[1..] == ScrubFields(fields[1..], keepUserNames, rules);
    }
  }

  lemma {:induction false} ScrubbedFieldAlike(key: string, value: Json, keepUserNames: bool, rules: Rules)
    requires Idempotent(rules.rewriteUrls)
    ensures AlikeField(key, ScrubField(key, value, keepUserNames, rules), value, keepUserNames, rules)
    decreases value, 2
  {
    var out := ScrubField(key, value, keepUserNames, rules);
    if Masked(key, value, keepUserNames, rules) {
      ScrubbedValueOutline(value);
      assert !IsNumberOrBool(out);
    } else if IsNumberOrBool(value) {
      assert ScrubPayload(value, keepUserNames, rules) == value;
    } else if !Counted(key, value, rules) {
      ScrubbedIsAlike(value, keepUserNames, rules);
    }
  }

  // Scrubbing what was scrubbed changes nothing: a cache hit may pass through again.
  lemma ScrubIsIdempotent(node: Json, keepUserNames: bool, rules: Rules)
    requires Idempotent(rules.rewriteUrls)
    ensures ScrubPayload(ScrubPayload(node, keepUserNames, rules), keepUserNames, rules)
         == ScrubPayload(node, keepUserNames, rules)
  {
    ScrubbedIsAlike(node, keepUserNames, rules);
    ScrubHidesExactly(ScrubPayload(node, keepUserNames, rules), node, keepUserNames, rules);
  }

  // ----- payloads that differ in secrets only --------------------------------------------

  predicate Scalar(v: Json) { v.Str? || IsNumberOrBool(v) }

  // The same tree, but for non-empty scalars under leaves that are secret in both.
  predicate DifferInSecrets(a: Json, b: Json, rules: Rules)
    decreases a, 1
  {
    match (a, b)
    case (Dict(fa), Dict(fb)) => FieldsDifferInSecrets(fa, fb, rules)
    case (List(ia), List(ib)) => ItemsDifferInSecrets(ia, ib, rules)
    case _ => a == b
  }

  predicate ItemsDifferInSecrets(a: seq<Json>, b: seq<Json>, rules: Rules)
    decreases a, 0
  {
    |a| == |b| && (a == [] || (DifferInSecrets(a[0], b[0], rules) && ItemsDifferInSecrets(a[1..], b[1..], rules)))
  }

  predicate FieldsDifferInSecrets(a: seq<Field>, b: seq<Field>, rules: Rules)
    decreases a, 0
  {
    |a| == |b|
    && (a == [] || (a[0].key == b[0].key
                    && (a[0].value == b[0].value
                        || (IsSecret(a[0].key, a[0].value, rules) && IsSecret(a[0].key, b[0].value, rules)
                            && Scalar(a[0].value) && Scalar(b[0].value) && !Empty(a[0].value) && !Empty(b[0].value))
                        || (!IsSecret(a[0].key, a[0].value, rules) && !IsSecret(a[0].key, b[0].value, rules)
                            && DifferInSecrets(a[0].value, b[0].value, rules)))
                    && FieldsDifferInSecrets(a[1..], b[1..], rules)))
  }

  // Whatever the secrets are, the scrubbed payload is the same.
  lemma {:induction false} SecretsDoNotShow(a: Json, b: Json, keepUserNames: bool, rules: Rules)
    requires DifferInSecrets(a, b, rules)
    ensures ScrubPayload(a, keepUserNames, rules) == ScrubPayload(b, keepUserNames, rules)
    decreases a, 1
  {
    match (a, b)
    case (Dict(fa), Dict(fb)) => SecretFieldsDoNotShow(fa, fb, keepUserNames, rules);
    case (List(ia), List(ib)) => SecretItemsDoNotShow(ia, ib, keepUserNames, rules);
    case _ =>
  }

  lemma {:induction false} SecretItemsDoNotShow(a: seq<Json>, b: seq<Json>, keepUserNames: bool, rules: Rules)
    requires ItemsDifferInSecrets(a, b, rules)
    ensures ScrubItems(a, keepUserNames, rules) == ScrubItems(b, keepUserNames, rules)
    decreases a, 0
  {
    if a != [] {
      SecretsDoNotShow(a[0], b[0], keepUserNames, rules);
      SecretItemsDoNotShow(a[1..], b[1..], keepUserNames, rules);
    }
  }

  lemma {:induction false} SecretFieldsDoNotShow(a: seq<Field>, b: seq<Field>, keepUserNames: bool, rules: Rules)
    requires FieldsDifferInSecrets(a, b, rules)
    ensures ScrubFields(a, keepUserNames, rules) == ScrubFields(b, keepUserNames, rules)
    decreases a, 0
  {
    if a != [] {
      SecretFieldsDoNotShow(a[1..], b[1..], keepUserNames, rules);
      SecretFieldDoesNotShow(a[0].key, a[0].value, b[0].value, keepUserNames, rules);
    }
  }

  lemma {:induction false} SecretFieldDoesNotShow(key: string, x: Json, y: Json, keepUserNames: bool, rules: Rules)
    requires x == y
      || (IsSecret(key, x, rules) && IsSecret(key, y, rules) && Scalar(x) && Scalar(y) && !Empty(x) && !Empty(y))
      || (!IsSecret(key, x, rules) && !IsSecret(key, y, rules) && DifferInSecrets(x, y, rules))
    ensures ScrubField(key, x, keepUserNames, rules) == ScrubField(key, y, keepUserNames, rules)
    decreases x, 2
  {
    if x != y && !IsSecret(key, x, rules) {
      SecretsDoNotShow(x, y, keepUserNames, rules);
      DifferentSecretsOutline(x, y, rules);
      OutlineIsScrubbedValue(x, y);
      SameKind(x, y, rules);
    }
  }

  lemma SameKind(x: Json, y: Json, rules: Rules)
    requires DifferInSecrets(x, y, rules)
    ensures x.List? == y.List? && (x.List? ==> |x.items| == |y.items|)
  {
  }

  lemma {:induction false} DifferentSecretsOutline(a: Json, b: Json, rules: Rules)
    requires DifferInSecrets(a, b, rules)
    ensures SameOutline(a, b)
    decreases a, 1
  {
    match (a, b)
    case (Dict(fa), Dict(fb)) => assert |fa| == |fb|;
    case (List(ia), List(ib)) => DifferentSecretsOutlines(ia, ib, rules);
    case _ =>
  }

  lemma {:induction false} DifferentSecretsOutlines(a: seq<Json>, b: seq<Json>, rules: Rules)
    requires ItemsDifferInSecrets(a, b, rules)
    ensures SameOutlines(a, b)
    decreases a, 0
  {
    if a != [] {
      DifferentSecretsOutline(a[0], b[0], rules);
      DifferentSecretsOutlines(a[1..], b[1..], rules);
    }
  }

  // ----- the rules of the module -----------------------------------------------------------

  lemma NamesEndOtherwise(name: string)
    requires name in PERSON_KEYS + USER_NAME_KEYS
    ensures !EndsWith(name, "password")
  {
    if |name| >= 8 { assert name[|name| - 8..][7] == name[|name| - 1]; }
  }

  // Of the leaves whose name ends in "password" settings stay, numbers and booleans that
  // no exact name makes secret; and every text goes.
  lemma PasswordLeaves(key: string, value: Json, keepUserNames: bool, rewriteUrls: string -> string)
    requires EndsWith(Lower(key), "password") && '@' !in key
    requires IsNumberOrBool(value) || (value.Str? && value.s != "")
    ensures ScrubField(key, value, keepUserNames, RedfishRules(rewriteUrls))
         == if IsNumberOrBool(value) && Lower(key) !in SECRET_NAMES then value else Str(SCRUBBED)
  {
    if Lower(key) in PERSON_KEYS + USER_NAME_KEYS { NamesEndOtherwise(Lower(key)); }
  }
}
