/** Rewritings of a configuration that leave its public view, or the whole parse result, unchanged. */
module Invariance {
  import opened Wrappers
  import opened Text
  import opened SwanctlIr
  import opened Context
  import opened TokenMachine
  import opened Forest
  import opened Meaning
  import opened Grammar
  import opened Views

  // Order of siblings

  datatype Item = Setting(text: string) | Group(header: string, body: Forest)

  function Items(f: Forest): set<Item> {
    match f
    case Empty => {}
    case Assign(t, rest) => {Setting(t)} + Items(rest)
    case Block(h, body, rest) => {Group(h, body)} + Items(rest)
  }

  /** No key is given two values and no block name two contents. */
  predicate Consistent(items: set<Item>) {
    && (forall a, b :: a in items && b in items && a.Setting? && b.Setting? && KeyOf(a.text) == KeyOf(b.text) ==>
         ValueOf(a.text) == ValueOf(b.text))
    && (forall a, b :: a in items && b in items && a.Group? && b.Group? && Strip(a.header) == Strip(b.header) ==>
         a.body == b.body)
  }

  lemma {:induction false} LastValueIsItem(f: Forest, k: string)
    ensures LastValue(f, k).Some? ==>
      exists a :: a in Items(f) && a.Setting? && KeyOf(a.text) == k && LastValue(f, k) == Some(ValueOf(a.text))
    ensures LastValue(f, k).None? ==> forall a :: a in Items(f) && a.Setting? ==> KeyOf(a.text) != k
  {
    hide KeyOf, ValueOf;
    match f
    case Empty =>
    case Assign(t, rest) =>
      LastValueIsItem(rest, k);
      assert Setting(t) in Items(f);
    case Block(_, _, rest) => LastValueIsItem(rest, k);
  }

  lemma {:induction false} LastBlockIsItem(f: Forest, n: string)
    ensures LastBlock(f, n).Some? ==>
      exists a :: a in Items(f) && a.Group? && Strip(a.header) == n && LastBlock(f, n) == Some(a.body)
    ensures LastBlock(f, n).None? ==> forall a :: a in Items(f) && a.Group? ==> Strip(a.header) != n
  {
    hide Strip;
    match f
    case Empty =>
    case Assign(_, rest) => LastBlockIsItem(rest, n);
    case Block(h, body, rest) =>
      LastBlockIsItem(rest, n);
      assert Group(h, body) in Items(f);
  }

  lemma SameItemsSameLast(f: Forest, g: Forest)
    requires Items(f) == Items(g) && Consistent(Items(f))
    ensures forall k :: LastValue(f, k) == LastValue(g, k)
    ensures forall n :: LastBlock(f, n) == LastBlock(g, n)
  {
    hide KeyOf, ValueOf, Strip;
    forall k ensures LastValue(f, k) == LastValue(g, k) {
      LastValueIsItem(f, k);
      LastValueIsItem(g, k);
    }
    forall n ensures LastBlock(f, n) == LastBlock(g, n) {
      LastBlockIsItem(f, n);
      LastBlockIsItem(g, n);
    }
  }

  lemma {:induction false} LastOfAppend(f: Forest, g: Forest)
    ensures forall k :: LastValue(Append(f, g), k) == if LastValue(g, k).Some? then LastValue(g, k) else LastValue(f, k)
    ensures forall n :: LastBlock(Append(f, g), n) == if LastBlock(g, n).Some? then LastBlock(g, n) else LastBlock(f, n)
  {
    hide KeyOf, ValueOf, Strip;
    match f
    case Empty =>
    case Assign(_, rest) => LastOfAppend(rest, g);
    case Block(_, _, rest) => LastOfAppend(rest, g);
  }

  /** When all blocks called `n` agree, reading them one after the other is reading the last one. */
  lemma {:induction false} InsideConsistent(f: Forest, n: string)
    requires Consistent(Items(f))
    ensures var b := LastBlock(f, n).GetOr(Empty);
      && (forall k :: LastValue(Inside(f, n), k) == LastValue(b, k))
      && (forall m :: LastBlock(Inside(f, n), m) == LastBlock(b, m))
  {
    hide KeyOf, ValueOf, Strip;
    match f
    case Empty =>
    case Assign(_, rest) => InsideConsistent(rest, n);
    case Block(h, body, rest) =>
      InsideConsistent(rest, n);
      LastOfAppend(body, Inside(rest, n));
      LastBlockIsItem(rest, n);
      assert Group(h, body) in Items(f);
  }

  /**
   * Reordering or repeating the items of a block changes nothing, at whichever level the block stands: in a child or
   * role, in a connection, among the connections, or at top level.
   */
  lemma ReorderingKeepsView(f: Forest, g: Forest)
    requires Items(f) == Items(g) && Consistent(Items(f))
    ensures SameValues(f, g, CHILD_KEYS) && SameValues(f, g, ROLE_KEYS)
    ensures SameChildBlocks(f, g)
    ensures SameConnectionBody(f, g)
    ensures SameConnectionBlocks(f, g)
    ensures SameConfiguration(f, g) && Means(f).connections == Means(g).connections
  {
    hide Consistent, Items, SameChildBlocks, SameConnectionBlocks, Inside, LastBlock, LastValue, Means;
    SameItemsSameLast(f, g);
    SameInside(f, g, "local");
    SameInside(f, g, "remote");
    SameInside(f, g, "children");
    SameInside(f, g, "connections");
    SameLastSameBlocks(f, g);
    SameLastSameBlocks(Inside(f, "children"), Inside(g, "children"));
    SameLastSameBlocks(Inside(f, "connections"), Inside(g, "connections"));
    ViewDependsOnLastOnly(f, g);
  }

  lemma SameInside(f: Forest, g: Forest, n: string)
    requires Items(f) == Items(g) && Consistent(Items(f))
    ensures forall k :: LastValue(Inside(f, n), k) == LastValue(Inside(g, n), k)
    ensures forall m :: LastBlock(Inside(f, n), m) == LastBlock(Inside(g, n), m)
  {
    hide Consistent, Items;
    SameItemsSameLast(f, g);
    InsideConsistent(f, n);
    InsideConsistent(g, n);
  }

  lemma SameLastSameBlocks(f: Forest, g: Forest)
    requires forall n :: LastBlock(f, n) == LastBlock(g, n)
    ensures SameChildBlocks(f, g) && SameConnectionBlocks(f, g)
  {
    forall b: Forest ensures SameConnectionBody(b, b) {}
  }

  /** `g` is `f` with other contents in its top-level blocks that are not called `connections`. */
  predicate SameConnectionsText(f: Forest, g: Forest) {
    match (f, g)
    case (Empty, Empty) => true
    case (Assign(_, f'), Assign(_, g')) => SameConnectionsText(f', g')
    case (Block(h, a, f'), Block(i, b, g')) =>
      h == i && (Strip(h) == "connections" ==> a == b) && SameConnectionsText(f', g')
    case _ => false
  }

  /** Secrets, and every other part outside the `connections` blocks, do not show in the public view. */
  lemma {:induction false} OnlyConnectionsShow(f: Forest, g: Forest)
    requires SameConnectionsText(f, g)
    ensures Inside(f, "connections") == Inside(g, "connections")
    ensures Means(f).connections == Means(g).connections
  {
    match f
    case Empty =>
    case Assign(_, rest) => OnlyConnectionsShow(rest, g.rest);
    case Block(_, _, rest) => OnlyConnectionsShow(rest, g.rest);
    TopIsInside(f, map[]);
    TopIsInside(g, map[]);
  }

  // Redaction

  /** Equal, or two assignments to one secret-named key. */
  predicate SecretVariant(a: string, b: string) {
    a == b || ('=' in a && '=' in b && KeyOf(a) == KeyOf(b) && IsSecretKey(KeyOf(a)))
  }

  predicate VariantInside(f: Forest, g: Forest) {
    match (f, g)
    case (Empty, Empty) => true
    case (Assign(a, f'), Assign(b, g')) => SecretVariant(a, b) && VariantInside(f', g')
    case (Block(h, a, f'), Block(i, b, g')) => h == i && VariantInside(a, b) && VariantInside(f', g')
    case _ => false
  }

  /** The documents differ at most in the right-hand sides of secret-named keys within top-level `secrets` blocks. */
  predicate Variant(f: Forest, g: Forest) {
    match (f, g)
    case (Empty, Empty) => true
    case (Assign(a, f'), Assign(b, g')) => a == b && Variant(f', g')
    case (Block(h, a, f'), Block(i, b, g')) =>
      h == i && (if Strip(h) == "secrets" then VariantInside(a, b) else a == b) && Variant(f', g')
    case _ => false
  }

  lemma {:induction false} VariantSecret(f: Forest, g: Forest)
    requires VariantInside(f, g)
    ensures forall s :: SecretOf(f, s) == SecretOf(g, s)
    decreases f
  {
    hide KeyOf, ValueOf, Strip, IsSecretKey;
    match f
    case Empty =>
    case Assign(_, rest) => VariantSecret(rest, g.rest);
    case Block(_, body, rest) =>
      VariantSecret(body, g.body);
      VariantSecret(rest, g.rest);
  }

  lemma {:induction false} VariantSecrets(f: Forest, g: Forest)
    requires VariantInside(f, g)
    ensures forall m :: SecretsOf(f, m) == SecretsOf(g, m)
    decreases f
  {
    hide KeyOf, ValueOf, Strip, IsSecretKey;
    match f
    case Empty =>
    case Assign(_, rest) => VariantSecrets(rest, g.rest);
    case Block(_, body, rest) =>
      VariantSecret(body, g.body);
      VariantSecrets(rest, g.rest);
  }

  lemma {:induction false} VariantUnsupported(f: Forest, g: Forest, path: seq<string>)
    requires VariantInside(f, g) && path != [] && path[0] == "secrets"
    ensures UnsupportedOf(f, path) == UnsupportedOf(g, path)
    decreases f
  {
    hide KeyOf, ValueOf, Strip, IsSecretKey, JoinDots;
    match f
    case Empty =>
    case Assign(_, rest) =>
      assert |path| == 1 ==> path == ["secrets"];
      VariantUnsupported(rest, g.rest, path);
    case Block(h, body, rest) =>
      VariantUnsupported(body, g.body, path + [Strip(h)]);
      VariantUnsupported(rest, g.rest, path);
  }

  lemma {:induction false} VariantMeans(f: Forest, g: Forest)
    requires Variant(f, g)
    ensures forall m :: TopConnections(f, m) == TopConnections(g, m)
    ensures forall m :: TopSecrets(f, m) == TopSecrets(g, m)
    ensures UnsupportedOf(f, []) == UnsupportedOf(g, [])
    decreases f
  {
    hide KeyOf, ValueOf, Strip, IsSecretKey, JoinDots, ConnectionsOf, SecretsOf;
    match f
    case Empty =>
    case Assign(_, rest) => VariantMeans(rest, g.rest);
    case Block(h, body, rest) =>
      VariantMeans(rest, g.rest);
      if Strip(h) == "secrets" {
        VariantSecrets(body, g.body);
        VariantUnsupported(body, g.body, [] + [Strip(h)]);
      }
  }

  lemma {:induction false} VariantReads(f: Forest, g: Forest, depth: nat)
    requires VariantInside(f, g) || Variant(f, g)
    requires Acceptable(f, depth) && Readable(f)
    ensures Acceptable(g, depth) && Readable(g) && |Flatten(g)| == |Flatten(f)|
    decreases f
  {
    hide KeyOf, ValueOf, Strip, IsSecretKey;
    match f
    case Empty =>
    case Assign(_, rest) => VariantReads(rest, g.rest, depth);
    case Block(_, body, rest) =>
      if body != g.body { VariantReads(body, g.body, depth + 1); }
      VariantReads(rest, g.rest, depth);
  }

  /** Secret values leave no trace: connections, redacted secrets, unsupported list, hence everything derived, agree. */
  lemma SecretsDoNotLeak(tokens: seq<string>, f: Forest, g: Forest)
    requires Reads(tokens, f) && Variant(f, g)
    ensures Run(Flatten(g), [], EMPTY_DOCUMENT) == Run(tokens, [], EMPTY_DOCUMENT) == Ok(Means(f))
  {
    VariantReads(f, g, 0);
    VariantMeans(f, g);
    ReadingIsAccepted(tokens, f);
    ReadingIsAccepted(Flatten(g), g);
  }

  /** A stored secret shows a secret-named key only redacted, and carries the flag that goes with it. */
  predicate Redacted(s: Secret) {
    forall k :: k in s && IsSecretKey(k) ==> s[k] == Text(REDACTED) && "is_redacted" in s
  }

  lemma {:induction false} SecretOfRedacted(f: Forest, s: Secret)
    requires Redacted(s)
    ensures Redacted(SecretOf(f, s))
    decreases f
  {
    hide KeyOf, ValueOf, IsSecretKey;
    match f
    case Empty =>
    case Assign(t, rest) =>
      SetSecretRedacted(s, KeyOf(t), ValueOf(t));
      SecretOfRedacted(rest, SetSecret(s, KeyOf(t), ValueOf(t)));
    case Block(_, body, rest) =>
      SecretOfRedacted(body, s);
      SecretOfRedacted(rest, SecretOf(body, s));
  }

  lemma SetSecretRedacted(s: Secret, k: string, v: string)
    requires Redacted(s)
    ensures Redacted(SetSecret(s, k, v))
  {
    assert !IsSecretKey("is_redacted") by { assert Lower("is_redacted")[0] == 'i'; }
    hide IsSecretKey;
  }

  lemma DefaultSecretRedacted(n: string)
    ensures Redacted(DefaultSecret(n))
  {
    assert Lower("secret_id")[1] == 'e' && Lower("secret_id")[0] == 's';
    assert |Lower("secret_type")| == 11 && Lower("secret_type")[0] == 's';
  }

  lemma {:induction false} SecretsOfRedacted(f: Forest, m: map<string, Secret>)
    requires forall n :: n in m ==> Redacted(m[n])
    ensures forall n :: n in SecretsOf(f, m) ==> Redacted(SecretsOf(f, m)[n])
    decreases f
  {
    hide Strip, Redacted, SecretOf;
    match f
    case Empty =>
    case Assign(_, rest) => SecretsOfRedacted(rest, m);
    case Block(h, body, rest) =>
      DefaultSecretRedacted(Strip(h));
      SecretOfRedacted(body, DefaultSecret(Strip(h)));
      SecretsOfRedacted(rest, m[Strip(h) := SecretOf(body, DefaultSecret(Strip(h)))]);
  }

  lemma {:induction false} TopSecretsRedacted(f: Forest, m: map<string, Secret>)
    requires forall n :: n in m ==> Redacted(m[n])
    ensures forall n :: n in TopSecrets(f, m) ==> Redacted(TopSecrets(f, m)[n])
    decreases f
  {
    hide Strip, Redacted, SecretsOf;
    match f
    case Empty =>
    case Assign(_, rest) => TopSecretsRedacted(rest, m);
    case Block(h, body, rest) =>
      SecretsOfRedacted(body, m);
      TopSecretsRedacted(rest, if Strip(h) == "secrets" then SecretsOf(body, m) else m);
  }

  /** No accepted configuration leaves a secret-named key readable in its secrets. */
  lemma SecretsAreRedacted(tokens: seq<string>)
    requires Run(tokens, [], EMPTY_DOCUMENT).Ok?
    ensures var secrets := Run(tokens, [], EMPTY_DOCUMENT).value.secrets;
      forall n :: n in secrets ==> Redacted(secrets[n])
  {
    var f := AcceptedHasReading(tokens);
    ReadingIsAccepted(tokens, f);
    TopSecretsRedacted(f, map[]);
  }

  /** No secret-named key is one of the modelled connection, role or child keys. */
  lemma SecretKeysAreNotModelled(k: string)
    requires IsSecretKey(k)
    ensures k !in CONNECTION_KEYS && k !in ROLE_KEYS && k !in CHILD_KEYS
  {
    var low := Lower(k);
    assert |low| == |k| && forall i :: 0 <= i < |k| ==> low[i] == LowerChar(k[i]);
    assert low[0] == LowerChar(k[0]) && low[1] == LowerChar(k[1]) && low[2] == LowerChar(k[2]);
  }

  /** A secret-named key is kept out of the result exactly under `secrets`; elsewhere it is reported with its value. */
  lemma RedactionScope(path: seq<string>, k: string, doc: Document)
    requires Located(path, doc) && IsSecretKey(k)
    ensures (forall v, w :: AssignAt(path, k, v, doc) == AssignAt(path, k, w, doc))
      <==> path != [] && path[0] == "secrets"
  {
    SecretKeysAreNotModelled(k);
    if path == [] || path[0] != "secrets" {
      AssignReports(path, k, "a", doc);
      AssignReports(path, k, "b", doc);
      assert AssignAt(path, k, "a", doc).unsupported[|doc.unsupported|].value == "a";
      assert AssignAt(path, k, "b", doc).unsupported[|doc.unsupported|].value == "b";
    }
  }
}
