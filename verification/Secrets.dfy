/** `SecureString` leaves inside a value, and their encryption under the session key. */
module Secrets {
  import opened Common
  import opened Values
  import Base64
  import C = Crypto

  /** `contains_secure_string`. */
  predicate ContainsSecret(v: Value) {
    match v
    case Textual(k, _) => k.SecureString?
    case List(items) => AnySecret(items)
    case Dict(entries) => AnyEntrySecret(entries)
    case Object(_, _, props) => AnyPropSecret(props)
    case _ => false
  }

  predicate AnySecret(items: seq<Value>) {
    items != [] && (ContainsSecret(items[0]) || AnySecret(items[1..]))
  }

  predicate AnyEntrySecret(entries: seq<Entry>) {
    entries != [] && (EntrySecret(entries[0]) || AnyEntrySecret(entries[1..]))
  }

  predicate EntrySecret(e: Entry) {
    ContainsSecret(e.key) || ContainsSecret(e.val)
  }

  predicate AnyPropSecret(props: seq<Prop>) {
    props != [] && (ContainsSecret(props[0].value) || AnyPropSecret(props[1..]))
  }

  /** What stands in the `<SS>` element for a plaintext. */
  function Sealed(c: C.Cipher, plain: string): string {
    Base64.Encode(C.Encrypt(c, plain))
  }

  /** `encrypt_secure_strings`. */
  function EncryptSecrets(v: Value, c: C.Cipher): Value {
    match v
    case Textual(k, s) => if k.SecureString? then Textual(k, Sealed(c, s)) else v
    case List(items) => List(EncryptItems(items, c))
    case Dict(entries) => Dict(EncryptEntries(entries, c))
    case Object(names, display, props) => Object(names, display, EncryptProps(props, c))
    case _ => v
  }

  function EncryptItems(items: seq<Value>, c: C.Cipher): seq<Value> {
    if items == [] then [] else [EncryptSecrets(items[0], c)] + EncryptItems(items[1..], c)
  }

  function EncryptEntries(entries: seq<Entry>, c: C.Cipher): seq<Entry> {
    if entries == [] then [] else [EncryptEntry(entries[0], c)] + EncryptEntries(entries[1..], c)
  }

  function EncryptEntry(e: Entry, c: C.Cipher): Entry {
    Entry(EncryptSecrets(e.key, c), EncryptSecrets(e.val, c))
  }

  function EncryptProps(props: seq<Prop>, c: C.Cipher): seq<Prop> {
    if props == [] then []
    else [Prop(props[0].name, EncryptSecrets(props[0].value, c))] + EncryptProps(props[1..], c)
  }

  // ---- The leaves, and everything but the leaves ----

  /** The texts of the secrets, left to right. */
  function Leaves(v: Value): seq<string> {
    match v
    case Textual(k, s) => if k.SecureString? then [s] else []
    case List(items) => ItemLeaves(items)
    case Dict(entries) => EntryLeaves(entries)
    case Object(_, _, props) => PropLeaves(props)
    case _ => []
  }

  function ItemLeaves(items: seq<Value>): seq<string> {
    if items == [] then [] else Leaves(items[0]) + ItemLeaves(items[1..])
  }

  function EntryLeaves(entries: seq<Entry>): seq<string> {
    if entries == [] then [] else PairLeaves(entries[0]) + EntryLeaves(entries[1..])
  }

  function PairLeaves(e: Entry): seq<string> {
    Leaves(e.key) + Leaves(e.val)
  }

  function PropLeaves(props: seq<Prop>): seq<string> {
    if props == [] then [] else Leaves(props[0].value) + PropLeaves(props[1..])
  }

  /** The value with its secrets taken, in order, from `texts`; and the texts left over. */
  function Fill(v: Value, texts: seq<string>): (Value, seq<string>) {
    match v
    case Textual(k, s) =>
      if k.SecureString? && texts != [] then (Textual(k, texts[0]), texts[1..]) else (v, texts)
    case List(items) => var r := FillItems(items, texts); (List(r.0), r.1)
    case Dict(entries) => var r := FillEntries(entries, texts); (Dict(r.0), r.1)
    case Object(names, display, props) => var r := FillProps(props, texts); (Object(names, display, r.0), r.1)
    case _ => (v, texts)
  }

  function FillItems(items: seq<Value>, texts: seq<string>): (seq<Value>, seq<string>) {
    if items == [] then ([], texts)
    else
      var first := Fill(items[0], texts);
      var rest := FillItems(items[1..], first.1);
      ([first.0] + rest.0, rest.1)
  }

  function FillEntries(entries: seq<Entry>, texts: seq<string>): (seq<Entry>, seq<string>) {
    if entries == [] then ([], texts)
    else
      var first := FillEntry(entries[0], texts);
      var rest := FillEntries(entries[1..], first.1);
      ([first.0] + rest.0, rest.1)
  }

  function FillEntry(e: Entry, texts: seq<string>): (Entry, seq<string>) {
    var key := Fill(e.key, texts);
    var val := Fill(e.val, key.1);
    (Entry(key.0, val.0), val.1)
  }

  function FillProps(props: seq<Prop>, texts: seq<string>): (seq<Prop>, seq<string>) {
    if props == [] then ([], texts)
    else
      var first := Fill(props[0].value, texts);
      var rest := FillProps(props[1..], first.1);
      ([Prop(props[0].name, first.0)] + rest.0, rest.1)
  }

  function SealAll(c: C.Cipher, texts: seq<string>): (r: seq<string>)
    ensures |r| == |texts|
  {
    if texts == [] then [] else [Sealed(c, texts[0])] + SealAll(c, texts[1..])
  }

  lemma {:induction false} SealAllAppend(c: C.Cipher, a: seq<string>, b: seq<string>)
    ensures SealAll(c, a + b) == SealAll(c, a) + SealAll(c, b)
  {
    hide Sealed;
    if a == [] {
      assert a + b == b;
    } else {
      assert (a + b)[1..] == a[1..] + b;
      SealAllAppend(c, a[1..], b);
    }
  }

  /**
   * Encryption replaces every secret by its sealed form and nothing else: the value filled with the
   * sealed leaves, in order, is the encrypted value.
   */
  lemma {:induction false} EncryptionFills(v: Value, c: C.Cipher, more: seq<string>)
    ensures Fill(v, SealAll(c, Leaves(v)) + more) == (EncryptSecrets(v, c), more)
  {
    hide Sealed;
    match v
    case Textual(k, s) =>
      if k.SecureString? {
        assert SealAll(c, [s]) == [Sealed(c, s)] by { assert [s][1..] == []; }
        assert ([Sealed(c, s)] + more)[1..] == more;
      } else {
        assert [] + more == more;
      }
    case List(items) => ItemsFill(items, c, more);
    case Dict(entries) => EntriesFill(entries, c, more);
    case Object(_, _, props) => PropsFill(props, c, more);
    case _ => assert [] + more == more;
  }

  lemma {:induction false} ItemsFill(items: seq<Value>, c: C.Cipher, more: seq<string>)
    ensures FillItems(items, SealAll(c, ItemLeaves(items)) + more) == (EncryptItems(items, c), more)
  {
    hide Fill, EncryptSecrets, Leaves, SealAll;
    if items == [] {
      assert SealAll(c, []) + more == more by { SealNothing(c); }
    } else {
      SealAllAppend(c, Leaves(items[0]), ItemLeaves(items[1..]));
      Regroup(SealAll(c, Leaves(items[0])), SealAll(c, ItemLeaves(items[1..])), more);
      EncryptionFills(items[0], c, SealAll(c, ItemLeaves(items[1..])) + more);
      ItemsFill(items[1..], c, more);
    }
  }

  lemma SealNothing(c: C.Cipher)
    ensures SealAll(c, []) == []
  {
  }

  lemma {:induction false} EntriesFill(entries: seq<Entry>, c: C.Cipher, more: seq<string>)
    ensures FillEntries(entries, SealAll(c, EntryLeaves(entries)) + more) == (EncryptEntries(entries, c), more)
  {
    hide FillEntry, EncryptEntry, PairLeaves, SealAll;
    if entries == [] {
      assert SealAll(c, []) + more == more by { SealNothing(c); }
    } else {
      SealAllAppend(c, PairLeaves(entries[0]), EntryLeaves(entries[1..]));
      Regroup(SealAll(c, PairLeaves(entries[0])), SealAll(c, EntryLeaves(entries[1..])), more);
      EntryFills(entries[0], c, SealAll(c, EntryLeaves(entries[1..])) + more);
      EntriesFill(entries[1..], c, more);
    }
  }

  lemma EntryFills(e: Entry, c: C.Cipher, more: seq<string>)
    ensures FillEntry(e, SealAll(c, PairLeaves(e)) + more) == (EncryptEntry(e, c), more)
  {
    hide Fill, EncryptSecrets, Leaves, SealAll;
    SealAllAppend(c, Leaves(e.key), Leaves(e.val));
    Regroup(SealAll(c, Leaves(e.key)), SealAll(c, Leaves(e.val)), more);
    EncryptionFills(e.key, c, SealAll(c, Leaves(e.val)) + more);
    EncryptionFills(e.val, c, more);
  }

  lemma {:induction false} PropsFill(props: seq<Prop>, c: C.Cipher, more: seq<string>)
    ensures FillProps(props, SealAll(c, PropLeaves(props)) + more) == (EncryptProps(props, c), more)
  {
    hide Fill, EncryptSecrets, Leaves, SealAll;
    if props == [] {
      assert SealAll(c, []) + more == more by { SealNothing(c); }
    } else {
      SealAllAppend(c, Leaves(props[0].value), PropLeaves(props[1..]));
      Regroup(SealAll(c, Leaves(props[0].value)), SealAll(c, PropLeaves(props[1..])), more);
      EncryptionFills(props[0].value, c, SealAll(c, PropLeaves(props[1..])) + more);
      PropsFill(props[1..], c, more);
    }
  }

  /** A value holds a secret exactly when it has a leaf; without one, encryption changes nothing. */
  lemma {:induction false} SecretsAreLeaves(v: Value, c: C.Cipher)
    ensures ContainsSecret(v) <==> Leaves(v) != []
    ensures !ContainsSecret(v) ==> EncryptSecrets(v, c) == v
  {
    hide Sealed;
    match v
    case List(items) => ItemsAreLeaves(items, c);
    case Dict(entries) => EntriesAreLeaves(entries, c);
    case Object(_, _, props) => PropsAreLeaves(props, c);
    case _ =>
  }

  lemma {:induction false} ItemsAreLeaves(items: seq<Value>, c: C.Cipher)
    ensures AnySecret(items) <==> ItemLeaves(items) != []
    ensures !AnySecret(items) ==> EncryptItems(items, c) == items
  {
    hide ContainsSecret, Leaves, EncryptSecrets;
    if items != [] {
      SecretsAreLeaves(items[0], c);
      ItemsAreLeaves(items[1..], c);
      assert [items[0]] + items[1..] == items;
    }
  }

  lemma {:induction false} EntriesAreLeaves(entries: seq<Entry>, c: C.Cipher)
    ensures AnyEntrySecret(entries) <==> EntryLeaves(entries) != []
    ensures !AnyEntrySecret(entries) ==> EncryptEntries(entries, c) == entries
  {
    hide EntrySecret, PairLeaves, EncryptEntry;
    if entries != [] {
      EntryIsLeaves(entries[0], c);
      EntriesAreLeaves(entries[1..], c);
      assert [entries[0]] + entries[1..] == entries;
    }
  }

  lemma EntryIsLeaves(e: Entry, c: C.Cipher)
    ensures EntrySecret(e) <==> PairLeaves(e) != []
    ensures !EntrySecret(e) ==> EncryptEntry(e, c) == e
  {
    hide ContainsSecret, Leaves, EncryptSecrets;
    SecretsAreLeaves(e.key, c);
    SecretsAreLeaves(e.val, c);
  }

  lemma {:induction false} PropsAreLeaves(props: seq<Prop>, c: C.Cipher)
    ensures AnyPropSecret(props) <==> PropLeaves(props) != []
    ensures !AnyPropSecret(props) ==> EncryptProps(props, c) == props
  {
    hide ContainsSecret, Leaves, EncryptSecrets;
    if props != [] {
      SecretsAreLeaves(props[0].value, c);
      PropsAreLeaves(props[1..], c);
      assert [props[0]] + props[1..] == props;
    }
  }

  /** What the other side makes of a sealed text under the same key. */
  function Opened(c: C.Cipher, text: string): Option<string> {
    match Base64.Decode(text)
    case None => None
    case Some(payload) =>
      match C.Decrypt(c, payload)
      case Ok(plain) => Some(plain)
      case Err(_) => None
  }

  /** A sealed text opens to its plaintext, and to nothing else. */
  lemma SealedOpens(c: C.Cipher, plain: string)
    requires C.IsPermutation(c)
    ensures Opened(c, Sealed(c, plain)) == Some(plain)
  {
    hide C.Encrypt, C.Decrypt, Base64.Encode, Base64.Decode, C.IsPermutation;
    Base64.RoundTrip(C.Encrypt(c, plain));
    C.DecryptIffEncrypt(c, C.Encrypt(c, plain), plain);
  }

  // ---- What is sent for a value with secrets ----

  lemma {:induction false} LeavesAreSealed(v: Value, c: C.Cipher)
    ensures Leaves(EncryptSecrets(v, c)) == SealAll(c, Leaves(v))
  {
    hide Sealed;
    match v
    case Textual(k, s) =>
      if k.SecureString? {
        assert [s][1..] == [];
      }
    case List(items) => ItemLeavesAreSealed(items, c);
    case Dict(entries) => EntryLeavesAreSealed(entries, c);
    case Object(_, _, props) => PropLeavesAreSealed(props, c);
    case _ =>
  }

  lemma {:induction false} ItemLeavesAreSealed(items: seq<Value>, c: C.Cipher)
    ensures ItemLeaves(EncryptItems(items, c)) == SealAll(c, ItemLeaves(items))
  {
    hide Leaves, EncryptSecrets, SealAll;
    if items == [] {
      SealNothing(c);
    } else {
      LeavesAreSealed(items[0], c);
      ItemLeavesAreSealed(items[1..], c);
      SealAllAppend(c, Leaves(items[0]), ItemLeaves(items[1..]));
      assert EncryptItems(items, c)[1..] == EncryptItems(items[1..], c);
    }
  }

  lemma {:induction false} EntryLeavesAreSealed(entries: seq<Entry>, c: C.Cipher)
    ensures EntryLeaves(EncryptEntries(entries, c)) == SealAll(c, EntryLeaves(entries))
  {
    hide PairLeaves, EncryptEntry, SealAll;
    if entries == [] {
      SealNothing(c);
    } else {
      PairLeavesAreSealed(entries[0], c);
      EntryLeavesAreSealed(entries[1..], c);
      SealAllAppend(c, PairLeaves(entries[0]), EntryLeaves(entries[1..]));
      assert EncryptEntries(entries, c)[1..] == EncryptEntries(entries[1..], c);
    }
  }

  lemma PairLeavesAreSealed(e: Entry, c: C.Cipher)
    ensures PairLeaves(EncryptEntry(e, c)) == SealAll(c, PairLeaves(e))
  {
    hide Leaves, EncryptSecrets, SealAll;
    LeavesAreSealed(e.key, c);
    LeavesAreSealed(e.val, c);
    SealAllAppend(c, Leaves(e.key), Leaves(e.val));
  }

  lemma {:induction false} PropLeavesAreSealed(props: seq<Prop>, c: C.Cipher)
    ensures PropLeaves(EncryptProps(props, c)) == SealAll(c, PropLeaves(props))
  {
    hide Leaves, EncryptSecrets, SealAll;
    if props == [] {
      SealNothing(c);
    } else {
      LeavesAreSealed(props[0].value, c);
      PropLeavesAreSealed(props[1..], c);
      SealAllAppend(c, Leaves(props[0].value), PropLeaves(props[1..]));
      assert EncryptProps(props, c)[1..] == EncryptProps(props[1..], c);
    }
  }

  lemma {:induction false} SealedAt(c: C.Cipher, texts: seq<string>, i: nat)
    requires i < |texts|
    ensures SealAll(c, texts)[i] == Base64.Encode(C.Encrypt(c, texts[i]))
  {
    hide Base64.Encode, C.Encrypt;
    if i > 0 {
      SealedAt(c, texts[1..], i - 1);
    }
  }

  /** `w` is `v` with each secret, in order, the base64 of its encryption, and nothing else changed. */
  predicate IsEncryptionOf(w: Value, v: Value, c: C.Cipher) {
    && |Leaves(w)| == |Leaves(v)|
    && (forall i :: 0 <= i < |Leaves(v)| ==> Leaves(w)[i] == Base64.Encode(C.Encrypt(c, Leaves(v)[i])))
    && Fill(v, Leaves(w)) == (w, [])
  }

  lemma EncryptedValue(v: Value, c: C.Cipher)
    ensures IsEncryptionOf(EncryptSecrets(v, c), v, c)
  {
    hide Leaves, EncryptSecrets, SealAll, Fill, Base64.Encode, C.Encrypt;
    LeavesAreSealed(v, c);
    EncryptionFills(v, c, []);
    NothingAdded(SealAll(c, Leaves(v)));
    forall i | 0 <= i < |Leaves(v)| ensures SealAll(c, Leaves(v))[i] == Base64.Encode(C.Encrypt(c, Leaves(v)[i])) {
      SealedAt(c, Leaves(v), i);
    }
  }

  /** The other side opens each of those secrets to the one the host gave. */
  lemma EncryptedValueOpens(w: Value, v: Value, c: C.Cipher, i: nat)
    requires IsEncryptionOf(w, v, c) && C.IsPermutation(c) && i < |Leaves(v)|
    ensures Opened(c, Leaves(w)[i]) == Some(Leaves(v)[i])
  {
    hide Leaves, Fill, C.IsPermutation, Opened;
    SealedOpens(c, Leaves(v)[i]);
  }
}
