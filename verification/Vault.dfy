/**
 The encrypted credential store, with an ideal authenticated cipher: a box
 opens only with the key, nonce and associated data it was sealed with. Over
 every run whose rotations keep the keys in use it answers as a plain map
 from (tenant, reference) to secret.
 */
module Vault {
  import opened Options
  import opened Utf8

  type Tenant = string
  type Ref = string
  type KeyId = string
  type Bytes = seq<Byte>

  /** What a ciphertext column can hold: a sealed box, or bytes nobody sealed. */
  datatype Box = Sealed(key: Bytes, nonce: Bytes, aad: string, plain: Bytes) | Forged(bytes: Bytes)

  datatype Row = Row(tenant: Tenant, keyId: KeyId, nonce: Bytes, box: Box)

  type Rows = map<Ref, Row>

  datatype Keyring = Keyring(active: KeyId, keys: map<KeyId, Bytes>)

  datatype Vault = Vault(rows: Rows, keyring: Keyring)

  datatype PutResult = Stored | BadSize | NotAscii | Taken

  datatype GetResult = Missing | Found(value: string) | KeyUnavailable | BadMetadata | FailedDecryption

  const VERSION := "nextcloud-chatgpt-bridge-secret-v1"

  const MAX_SECRET_BYTES := 16384

  // ---- keyrings ----

  predicate KeyIdChar(c: char) {
    'A' <= c <= 'Z' || 'a' <= c <= 'z' || '0' <= c <= '9' || c == '.' || c == '_' || c == '-'
  }

  predicate KeyIdOk(id: KeyId) {
    1 <= |id| <= 64 && forall i :: 0 <= i < |id| ==> KeyIdChar(id[i])
  }

  /** The keyrings that can be constructed. */
  predicate KeyringOk(k: Keyring) {
    && k.active in k.keys && |k.keys| <= 16
    && forall id :: id in k.keys ==> KeyIdOk(id) && |k.keys[id]| == 32
  }

  // ---- the cipher and its associated data ----

  /** The fields joined by bars, one character a byte; encoding as ASCII fails for any other character. */
  function Aad(tenant: Tenant, ref: Ref, keyId: KeyId): Option<string> {
    if Ascii(tenant) && Ascii(ref) && Ascii(keyId) then Some(VERSION + "|" + (tenant + "|" + (ref + "|" + keyId))) else None
  }

  function Decrypt(key: Bytes, nonce: Bytes, aad: string, box: Box): Option<Bytes> {
    if box.Sealed? && box.key == key && box.nonce == nonce && box.aad == aad then Some(box.plain) else None
  }

  // ---- the operations ----

  /** `ref` and `nonce` are drawn at random. */
  function PutRow(v: Vault, tenant: Tenant, secret: string, ref: Ref, nonce: Bytes): (Vault, PutResult)
    requires KeyringOk(v.keyring)
  {
    var plain, keyId := Encode(secret), v.keyring.active;
    if plain == [] || |plain| > MAX_SECRET_BYTES then (v, BadSize) else
    match Aad(tenant, ref, keyId)
    case None => (v, NotAscii)
    case Some(aad) =>
      if ref in v.rows then (v, Taken)
      else
        var box := Sealed(v.keyring.keys[keyId], nonce, aad, plain);
        (v.(rows := v.rows[ref := Row(tenant, keyId, nonce, box)]), Stored)
  }

  function Open(row: Row, ref: Ref, keyring: Keyring): GetResult {
    if row.keyId !in keyring.keys then KeyUnavailable
    else if |row.nonce| != 12 then BadMetadata
    else
      match Aad(row.tenant, ref, row.keyId)
      case None => FailedDecryption
      case Some(aad) =>
        match Decrypt(keyring.keys[row.keyId], row.nonce, aad, row.box)
        case None => FailedDecryption
        case Some(plain) => if Decode(plain).Some? then Found(Decode(plain).value) else FailedDecryption
  }

  function GetRow(v: Vault, tenant: Tenant, ref: Ref): GetResult {
    if ref in v.rows && v.rows[ref].tenant == tenant then Open(v.rows[ref], ref, v.keyring) else Missing
  }

  function DeleteRow(v: Vault, tenant: Tenant, ref: Ref): Vault {
    if ref in v.rows && v.rows[ref].tenant == tenant then v.(rows := v.rows - {ref}) else v
  }

  class EncryptedDatabaseCredentialStore {
    var rows: Rows
    const keyring: Keyring

    function Contents(): Vault
      reads this
    {
      Vault(rows, keyring)
    }

    /** A store on an existing table; a rotation is a new store on the same table. */
    constructor (rows: Rows, keyring: Keyring)
      requires KeyringOk(keyring)
      ensures Contents() == Vault(rows, keyring)
    {
      this.rows, this.keyring := rows, keyring;
    }

    method Put(tenant: Tenant, secret: string, ref: Ref, nonce: Bytes) returns (r: PutResult)
      requires KeyringOk(keyring)
      modifies this
      ensures (Contents(), r) == PutRow(old(Contents()), tenant, secret, ref, nonce)
    {
      var plain := Encode(secret);
      if plain == [] || |plain| > MAX_SECRET_BYTES {
        return BadSize;
      }
      var key := keyring.keys[keyring.active];
      var aad := Aad(tenant, ref, keyring.active);
      if aad.None? {
        return NotAscii;
      }
      if ref in rows {
        return Taken;
      }
      rows := rows[ref := Row(tenant, keyring.active, nonce, Sealed(key, nonce, aad.value, plain))];
      r := Stored;
    }

    method Get(tenant: Tenant, ref: Ref) returns (r: GetResult)
      ensures r == GetRow(Contents(), tenant, ref)
    {
      if ref !in rows || rows[ref].tenant != tenant {
        return Missing;
      }
      var row := rows[ref];
      if row.keyId !in keyring.keys {
        return KeyUnavailable;
      }
      if |row.nonce| != 12 {
        return BadMetadata;
      }
      var aad := Aad(row.tenant, ref, row.keyId);
      if aad.None? {
        return FailedDecryption;
      }
      var plain := Decrypt(keyring.keys[row.keyId], row.nonce, aad.value, row.box);
      if plain.None? || Decode(plain.value).None? {
        return FailedDecryption;
      }
      r := Found(Decode(plain.value).value);
    }

    method Delete(tenant: Tenant, ref: Ref)
      modifies this
      ensures Contents() == DeleteRow(old(Contents()), tenant, ref)
    {
      if ref in rows && rows[ref].tenant == tenant {
        rows := rows - {ref};
      }
    }
  }

  // ---- the plain map ----

  type Plain = map<(Tenant, Ref), string>

  /** The secrets and names the store accepts; references are drawn afresh, so none is in use. */
  ghost predicate Accepts(m: Plain, tenant: Tenant, secret: string, ref: Ref) {
    && 1 <= |Encode(secret)| <= MAX_SECRET_BYTES && Ascii(tenant) && Ascii(ref)
    && forall t: Tenant :: (t, ref) !in m
  }

  datatype Event =
    | Put(tenant: Tenant, secret: string, ref: Ref, nonce: Bytes)
    | Get(tenant: Tenant, ref: Ref)
    | Delete(tenant: Tenant, ref: Ref)
    | Rotate(keyring: Keyring)

  datatype Answer = Kept(accepted: bool) | Read(result: GetResult) | Done

  function Act(v: Vault, e: Event): (Vault, Answer)
    requires KeyringOk(v.keyring)
    ensures KeyringOk(Act(v, e).0.keyring)
  {
    match e
    case Put(tenant, secret, ref, nonce) =>
      var (v', r) := PutRow(v, tenant, secret, ref, nonce);
      (v', Kept(r == Stored))
    case Get(tenant, ref) => (v, Read(GetRow(v, tenant, ref)))
    case Delete(tenant, ref) => (DeleteRow(v, tenant, ref), Done)
    case Rotate(k) => (if KeyringOk(k) then v.(keyring := k) else v, Done)
  }

  ghost function ActPlain(m: Plain, e: Event): (Plain, Answer) {
    match e
    case Put(tenant, secret, ref, _) =>
      if Accepts(m, tenant, secret, ref) then (m[(tenant, ref) := secret], Kept(true)) else (m, Kept(false))
    case Get(tenant, ref) => (m, Read(if (tenant, ref) in m then Found(m[(tenant, ref)]) else Missing))
    case Delete(tenant, ref) => (m - {(tenant, ref)}, Done)
    case Rotate(_) => (m, Done)
  }

  /** The new keyring still has every key that sealed a stored row, under the same id. */
  ghost predicate KeepsKeys(rows: Rows, k: Keyring) {
    forall ref :: ref in rows && rows[ref].box.Sealed? ==>
                    rows[ref].keyId in k.keys && k.keys[rows[ref].keyId] == rows[ref].box.key
  }

  /** Nonces have 12 bytes, and a rotation keeps the keys in use. */
  ghost predicate Careful(v: Vault, e: Event) {
    match e
    case Put(_, _, _, nonce) => |nonce| == 12
    case Rotate(k) => KeyringOk(k) ==> KeepsKeys(v.rows, k)
    case _ => true
  }

  // ---- refinement ----

  ghost predicate SealedAs(row: Row, ref: Ref, secret: string) {
    && |row.nonce| == 12 && row.box.Sealed? && row.box.nonce == row.nonce
    && Aad(row.tenant, ref, row.keyId) == Some(row.box.aad) && row.box.plain == Encode(secret)
  }

  /** The table holds exactly the secrets of the map, each sealed for its own tenant, reference and key id. */
  ghost predicate Holds(rows: Rows, m: Plain) {
    && (forall t: Tenant, ref: Ref :: (t, ref) in m <==> ref in rows && rows[ref].tenant == t)
    && forall ref :: ref in rows ==> SealedAs(rows[ref], ref, m[(rows[ref].tenant, ref)])
  }

  ghost predicate Refines(v: Vault, m: Plain) {
    KeyringOk(v.keyring) && KeepsKeys(v.rows, v.keyring) && Holds(v.rows, m)
  }

  /** A sealed row opens exactly under a keyring that still has its key. */
  lemma OpensWithItsKey(row: Row, ref: Ref, secret: string, k: Keyring)
    requires SealedAs(row, ref, secret)
    ensures Open(row, ref, k) == if row.keyId !in k.keys then KeyUnavailable
                                 else if k.keys[row.keyId] != row.box.key then FailedDecryption
                                 else Found(secret)
  {
    RoundTrip(secret);
  }

  lemma KeyIdsAreAscii(id: KeyId)
    requires KeyIdOk(id)
    ensures Ascii(id) && '|' !in id
  {
    forall i | 0 <= i < |id| ensures id[i] as int < 0x80 && id[i] != '|' {
      assert KeyIdChar(id[i]);
    }
  }

  lemma PutRefines(v: Vault, m: Plain, tenant: Tenant, secret: string, ref: Ref, nonce: Bytes)
    requires Refines(v, m) && |nonce| == 12
    ensures var (v', r) := PutRow(v, tenant, secret, ref, nonce);
            var (m', a) := ActPlain(m, Put(tenant, secret, ref, nonce));
            Refines(v', m') && Kept(r == Stored) == a
  {
    KeyIdsAreAscii(v.keyring.active);
    if ref in v.rows {
      assert (v.rows[ref].tenant, ref) in m;
    }
  }

  lemma ActRefines(v: Vault, m: Plain, e: Event)
    requires Refines(v, m) && Careful(v, e)
    ensures Refines(Act(v, e).0, ActPlain(m, e).0) && Act(v, e).1 == ActPlain(m, e).1
  {
    match e
    case Put(tenant, secret, ref, nonce) =>
      PutRefines(v, m, tenant, secret, ref, nonce);
    case Get(tenant, ref) =>
      if (tenant, ref) in m {
        OpensWithItsKey(v.rows[ref], ref, m[(tenant, ref)], v.keyring);
      }
    case Delete(tenant, ref) =>
    case Rotate(k) =>
  }

  function Run(v: Vault, events: seq<Event>): (Vault, seq<Answer>)
    requires KeyringOk(v.keyring)
    decreases events
  {
    if events == [] then (v, []) else
    var (v', a) := Act(v, events[0]);
    var (v'', rest) := Run(v', events[1..]);
    (v'', [a] + rest)
  }

  ghost function RunPlain(m: Plain, events: seq<Event>): (Plain, seq<Answer>)
    decreases events
  {
    if events == [] then (m, []) else
    var (m', a) := ActPlain(m, events[0]);
    var (m'', rest) := RunPlain(m', events[1..]);
    (m'', [a] + rest)
  }

  ghost predicate CarefulRun(v: Vault, events: seq<Event>)
    requires KeyringOk(v.keyring)
    decreases events
  {
    events != [] ==> Careful(v, events[0]) && CarefulRun(Act(v, events[0]).0, events[1..])
  }

  /** Puts, gets, deletes and careful rotations in any order: every answer is the plain map's. */
  lemma {:induction false} RunsRefine(v: Vault, m: Plain, events: seq<Event>)
    requires Refines(v, m) && CarefulRun(v, events)
    ensures Run(v, events).1 == RunPlain(m, events).1 && Refines(Run(v, events).0, RunPlain(m, events).0)
    decreases events
  {
    if events != [] {
      ActRefines(v, m, events[0]);
      RunsRefine(Act(v, events[0]).0, ActPlain(m, events[0]).0, events[1..]);
    }
  }

  ghost predicate Serves(v: Vault, m: Plain) {
    forall tenant: Tenant, ref: Ref :: Read(GetRow(v, tenant, ref)) == ActPlain(m, Get(tenant, ref)).1
  }

  /** A rotation loses no secret if and only if the new keyring keeps every key in use. */
  lemma RotationIsExact(v: Vault, m: Plain, k: Keyring)
    requires Refines(v, m) && KeyringOk(k)
    ensures Serves(v.(keyring := k), m) <==> KeepsKeys(v.rows, k)
  {
    var v' := v.(keyring := k);
    if KeepsKeys(v.rows, k) {
      forall tenant: Tenant, ref: Ref ensures Read(GetRow(v', tenant, ref)) == ActPlain(m, Get(tenant, ref)).1 {
        ActRefines(v', m, Get(tenant, ref));
      }
    } else {
      var ref :| ref in v.rows && v.rows[ref].box.Sealed?
                 && !(v.rows[ref].keyId in k.keys && k.keys[v.rows[ref].keyId] == v.rows[ref].box.key);
      var tenant := v.rows[ref].tenant;
      OpensWithItsKey(v.rows[ref], ref, m[(tenant, ref)], k);
      assert Read(GetRow(v', tenant, ref)) != ActPlain(m, Get(tenant, ref)).1;
    }
  }

  // ---- altered rows ----

  lemma NotBefore(a: string, x: string, b: string, y: string)
    requires '|' !in b
    ensures a + "|" + x == b + "|" + y ==> |a| >= |b|
  {
    if |a| < |b| {
      assert (a + "|" + x)[|a|] == '|' && (b + "|" + y)[|a|] == b[|a|];
    }
  }

  lemma NotAfter(x: string, a: string, y: string, b: string)
    requires '|' !in a
    ensures x + "|" + a == y + "|" + b ==> |x| >= |y|
  {
    if |x| < |y| && |x| + |a| == |y| + |b| {
      assert (y + "|" + b)[|y|] == '|' && (x + "|" + a)[|y|] == a[|y| - |x| - 1];
    } else {
      assert |x + "|" + a| == |x| + 1 + |a| && |y + "|" + b| == |y| + 1 + |b|;
    }
  }

  /** The first bar of a text, if the part before it has none. */
  lemma CutAtFirst(a: string, x: string, b: string, y: string)
    requires '|' !in a && '|' !in b && a + "|" + x == b + "|" + y
    ensures a == b && x == y
  {
    NotBefore(a, x, b, y);
    NotBefore(b, y, a, x);
    var s, s' := a + "|" + x, b + "|" + y;
    assert a == s[..|a|] && b == s'[..|b|];
    assert x == s[|a| + 1..] && y == s'[|b| + 1..];
  }

  /** The last bar of a text, if the part after it has none. */
  lemma CutAtLast(x: string, a: string, y: string, b: string)
    requires '|' !in a && '|' !in b && x + "|" + a == y + "|" + b
    ensures x == y && a == b
  {
    NotAfter(x, a, y, b);
    NotAfter(y, b, x, a);
    var s, s' := x + "|" + a, y + "|" + b;
    assert x == s[..|x|] && y == s'[..|y|];
    assert a == s[|x| + 1..] && b == s'[|y| + 1..];
  }

  /** Bar-free tenants and key ids make the associated data injective; the reference may hold anything. */
  lemma AadIsInjective(t: Tenant, r: Ref, k: KeyId, t': Tenant, r': Ref, k': KeyId)
    requires '|' !in t && '|' !in t' && '|' !in k && '|' !in k'
    requires Aad(t, r, k).Some? && Aad(t, r, k) == Aad(t', r', k')
    ensures t == t' && r == r' && k == k'
  {
    var rest, rest' := t + "|" + (r + "|" + k), t' + "|" + (r' + "|" + k');
    var head := VERSION + "|";
    assert rest == (head + rest)[|head|..] && rest' == (head + rest')[|head|..];
    CutAtFirst(t, r + "|" + k, t', r' + "|" + k');
    CutAtLast(r, k, r', k');
  }

  // ---- the tenants of the bridge ----

  function HexDigit(n: int): char
    requires 0 <= n < 16
  {
    "0123456789abcdef"[n]
  }

  function Hex(digest: Bytes): string {
    if digest == [] then "" else [HexDigit(digest[0] / 16), HexDigit(digest[0] % 16)] + Hex(digest[1..])
  }

  /** `BridgeIdentity.tenant_id`, given the digest of issuer and subject. */
  function TenantOf(digest: Bytes): Tenant {
    "tenant_" + Hex(digest)
  }

  /** The characters a tenant is made of. */
  predicate Plainly(s: string) {
    forall i :: 0 <= i < |s| ==> 'a' <= s[i] <= 'z' || '0' <= s[i] <= '9' || s[i] == '_'
  }

  lemma {:induction false} HexIsPlain(digest: Bytes)
    ensures Plainly(Hex(digest))
  {
    if digest != [] {
      HexIsPlain(digest[1..]);
    }
  }

  lemma TenantHasNoBar(digest: Bytes)
    ensures '|' !in TenantOf(digest) && Ascii(TenantOf(digest))
  {
    HexIsPlain(digest);
    assert Plainly("tenant_");
    assert Plainly(TenantOf(digest));
  }

  lemma DigitsDiffer(m: int, n: int)
    requires 0 <= m < 16 && 0 <= n < 16
    ensures HexDigit(m) == HexDigit(n) ==> m == n
  {
    if m != n {
      var digits := "0123456789abcdef";
      assert forall i, j :: 0 <= i < j < 16 ==> digits[i] != digits[j];
    }
  }

  lemma BytesDiffer(x: Byte, y: Byte)
    ensures HexDigit(x / 16) == HexDigit(y / 16) && HexDigit(x % 16) == HexDigit(y % 16) ==> x == y
  {
    DigitsDiffer(x / 16, y / 16);
    DigitsDiffer(x % 16, y % 16);
  }

  lemma HexParts(digest: Bytes)
    requires digest != []
    ensures |Hex(digest)| >= 2 && Hex(digest)[2..] == Hex(digest[1..])
    ensures Hex(digest)[0] == HexDigit(digest[0] / 16) && Hex(digest)[1] == HexDigit(digest[0] % 16)
  {
  }

  lemma {:induction false} HexInjective(d: Bytes, d': Bytes)
    requires Hex(d) == Hex(d')
    ensures d == d'
  {
    if d != [] {
      HexParts(d);
    }
    if d' != [] {
      HexParts(d');
    }
    if d != [] && d' != [] {
      BytesDiffer(d[0], d'[0]);
      HexInjective(d[1..], d'[1..]);
      assert d == [d[0]] + d[1..] && d' == [d'[0]] + d'[1..];
    }
  }

  /** For the tenants and key ids there are, equal associated data means equal identity, reference and key id. */
  lemma AadNamesTheSecret(d: Bytes, r: Ref, k: KeyId, d': Bytes, r': Ref, k': KeyId)
    requires KeyIdOk(k) && KeyIdOk(k') && Ascii(r) && Ascii(r')
    ensures Aad(TenantOf(d), r, k).Some?
    ensures Aad(TenantOf(d), r, k) == Aad(TenantOf(d'), r', k') <==> d == d' && r == r' && k == k'
  {
    TenantHasNoBar(d);
    TenantHasNoBar(d');
    KeyIdsAreAscii(k);
    KeyIdsAreAscii(k');
    if Aad(TenantOf(d), r, k) == Aad(TenantOf(d'), r', k') {
      AadIsInjective(TenantOf(d), r, k, TenantOf(d'), r', k');
      assert Hex(d) == TenantOf(d)[7..] && Hex(d') == TenantOf(d')[7..];
      HexInjective(d, d');
    }
  }

  /** The requirement on tenants is needed: a bar can move from the tenant into the reference. */
  lemma BarsMove(t: Tenant, x: string, r: Ref, k: KeyId)
    ensures Aad(t + "|" + x, r, k) == Aad(t, x + "|" + r, k)
  {
    assert Ascii(t + "|" + x) && Ascii(r) <==> Ascii(t) && Ascii(x + "|" + r) by {
      AsciiJoined(t, x);
      AsciiJoined(x, r);
    }
    assert t + "|" + x + "|" + (r + "|" + k) == t + "|" + (x + "|" + r + "|" + k);
  }

  lemma AsciiJoined(a: string, b: string)
    ensures Ascii(a + "|" + b) <==> Ascii(a) && Ascii(b)
  {
    var s := a + "|" + b;
    assert forall i :: 0 <= i < |a| ==> s[i] == a[i];
    assert forall i :: 0 <= i < |b| ==> s[|a| + 1 + i] == b[i];
  }

  /**
   A sealed box moved into any row, under any reference, opens if and only if
   tenant, reference, key id and nonce are those it was sealed with; bytes
   that nobody sealed never open.
   */
  lemma AlteredRowNeverOpens(v: Vault, m: Plain, ref: Ref, row: Row, ref': Ref)
    requires Refines(v, m) && ref in v.rows && (row.box == v.rows[ref].box || row.box.Forged?)
    requires '|' !in row.tenant && '|' !in v.rows[ref].tenant
    ensures GetRow(v.(rows := v.rows[ref' := row]), row.tenant, ref').Found? <==> ref' == ref && row == v.rows[ref]
  {
    var original := v.rows[ref];
    OpensWithItsKey(original, ref, m[(original.tenant, ref)], v.keyring);
    KeyIdsAreAscii(original.keyId);
    if Open(row, ref', v.keyring).Found? {
      KeyIdsAreAscii(row.keyId);
      AadIsInjective(row.tenant, ref', row.keyId, original.tenant, ref, original.keyId);
    }
  }

  // ---- keyrings and answers, spelled out ----

  /** The characters of a key id, one by one. */
  predicate InKeyId(c: char) {
    c in {'A', 'B', 'C', 'D', 'E', 'F', 'G', 'H', 'I', 'J', 'K', 'L', 'M',
          'N', 'O', 'P', 'Q', 'R', 'S', 'T', 'U', 'V', 'W', 'X', 'Y', 'Z',
          'a', 'b', 'c', 'd', 'e', 'f', 'g', 'h', 'i', 'j', 'k', 'l', 'm',
          'n', 'o', 'p', 'q', 'r', 's', 't', 'u', 'v', 'w', 'x', 'y', 'z',
          '0', '1', '2', '3', '4', '5', '6', '7', '8', '9', '.', '_', '-'}
  }

  lemma InKeyIdIs(c: char)
    ensures InKeyId(c) <==> KeyIdChar(c)
  {
  }

  /** A keyring has its active key and at most 16 keys of 32 bytes under ids of 1 to 64 such characters. */
  lemma KeyringIs(k: Keyring)
    ensures KeyringOk(k) <==>
            && k.active in k.keys && |k.keys| <= 16
            && forall id :: id in k.keys ==>
                 |k.keys[id]| == 32 && 1 <= |id| <= 64 && forall i :: 0 <= i < |id| ==> InKeyId(id[i])
  {
    forall id | id in k.keys ensures KeyIdOk(id) <==> 1 <= |id| <= 64 && forall i :: 0 <= i < |id| ==> InKeyId(id[i]) {
      forall i | 0 <= i < |id| ensures InKeyId(id[i]) <==> KeyIdChar(id[i]) {
        InKeyIdIs(id[i]);
      }
    }
  }

  /** The data a secret is sealed with. */
  function SealedData(tenant: Tenant, ref: Ref, keyId: KeyId): string {
    "nextcloud-chatgpt-bridge-secret-v1" + "|" + (tenant + "|" + (ref + "|" + keyId))
  }

  /** The box holds this secret under the key of the row's id and the data of the row. */
  predicate Seals(row: Row, ref: Ref, k: Keyring, secret: string) {
    && row.keyId in k.keys && |row.nonce| == 12
    && Ascii(row.tenant) && Ascii(ref) && Ascii(row.keyId)
    && row.box == Sealed(k.keys[row.keyId], row.nonce, SealedData(row.tenant, ref, row.keyId), Encode(secret))
  }

  /** Which answer reading a row gives. */
  lemma GetAnswers(v: Vault, tenant: Tenant, ref: Ref)
    ensures var r := GetRow(v, tenant, ref);
            var stored := ref in v.rows && v.rows[ref].tenant == tenant;
            && (r == Missing <==> !stored)
            && (r == KeyUnavailable <==> stored && v.rows[ref].keyId !in v.keyring.keys)
            && (r == BadMetadata <==> stored && v.rows[ref].keyId in v.keyring.keys && |v.rows[ref].nonce| != 12)
            && (forall secret :: r == Found(secret) <==> stored && Seals(v.rows[ref], ref, v.keyring, secret))
            && (r.Found? || r in {Missing, KeyUnavailable, BadMetadata, FailedDecryption})
  {
    if ref in v.rows && v.rows[ref].tenant == tenant {
      var row := v.rows[ref];
      forall secret ensures Open(row, ref, v.keyring) == Found(secret) <==> Seals(row, ref, v.keyring, secret) {
        OpensIff(row, ref, v.keyring, secret);
      }
    }
  }

  lemma OpensIff(row: Row, ref: Ref, k: Keyring, secret: string)
    ensures Open(row, ref, k) == Found(secret) <==> Seals(row, ref, k, secret)
  {
    if row.box.Sealed? {
      DecodesIff(row.box.plain, secret);
    }
  }

  /** Which answer storing a secret gives, and what it stores. */
  lemma PutAnswers(v: Vault, tenant: Tenant, secret: string, ref: Ref, nonce: Bytes)
    requires KeyringOk(v.keyring)
    ensures var (v', r) := PutRow(v, tenant, secret, ref, nonce);
            && (r == BadSize <==> secret == "" || |Encode(secret)| > 16384)
            && (r == NotAscii <==> 1 <= |Encode(secret)| <= 16384 && !(Ascii(tenant) && Ascii(ref)))
            && (r == Taken <==> 1 <= |Encode(secret)| <= 16384 && Ascii(tenant) && Ascii(ref) && ref in v.rows)
            && (r != Stored ==> v' == v)
            && (r == Stored ==>
                  && v'.keyring == v.keyring && v'.rows == v.rows[ref := v'.rows[ref]] && v'.rows[ref].tenant == tenant
                  && v'.rows[ref].keyId == v.keyring.active && v'.rows[ref].nonce == nonce
                  && (|nonce| == 12 ==> Seals(v'.rows[ref], ref, v.keyring, secret)))
  {
    KeyIdsAreAscii(v.keyring.active);
    DecodesIff([], secret);
  }
}
