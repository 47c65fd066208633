/** The texts behind generation identifiers, checksums, object names and watcher snapshots, and
    why each of them determines what it was rendered from. */
module Digests {
  import opened Strings
  import opened Compiled

  // ------------------------------------------------------------ sorted keys --

  ghost predicate Ascending(s: seq<string>) {
    forall i, j | 0 <= i < j < |s| :: Less(s[i], s[j])
  }

  ghost predicate SortedKeys<V>(m: map<string, V>, keys: seq<string>) {
    Ascending(keys) && forall k :: k in keys <==> k in m
  }

  method LeastKey(keys: set<string>) returns (least: string)
    requires keys != {}
    ensures least in keys && forall k | k in keys && k != least :: Less(least, k)
  {
    least :| least in keys;
    var rest := keys - {least};
    while rest != {}
      invariant rest <= keys && least in keys
      invariant forall k | k in keys && k !in rest && k != least :: Less(least, k)
    {
      var k :| k in rest;
      rest := rest - {k};
      LessIsConnected(least, k);
      if Less(k, least) {
        ghost var before := least;
        forall other | other in keys && other !in rest && other != k
          ensures Less(k, other)
        {
          if other != before {
            LessIsTransitive(k, before, other);
          }
        }
        least := k;
      }
    }
  }

  /** The keys of a map, sorted: what `sort.Strings` makes of any walk of it. */
  method SortKeys<V>(m: map<string, V>) returns (keys: seq<string>)
    ensures SortedKeys(m, keys)
  {
    keys := [];
    var rest := m.Keys;
    while rest != {}
      invariant rest <= m.Keys && Ascending(keys)
      invariant forall k :: k in keys <==> k in m.Keys - rest
      invariant forall i, k | 0 <= i < |keys| && k in rest :: Less(keys[i], k)
    {
      var least := LeastKey(rest);
      rest := rest - {least};
      keys := keys + [least];
    }
  }

  /** Whatever order a map is walked in, the sorted keys are the same. */
  lemma {:induction false} SortedKeysAreUnique(a: seq<string>, b: seq<string>)
    requires Ascending(a) && Ascending(b) && forall k :: k in a <==> k in b
    ensures a == b
  {
    assert (a != [] ==> a[0] in a) && (b != [] ==> b[0] in b);
    if a != [] {
      assert a[0] in b;
      var i :| 0 <= i < |b| && b[i] == a[0];
      assert b[0] in a;
      var j :| 0 <= j < |a| && a[j] == b[0];
      FirstIsLeast(a, j);
      FirstIsLeast(b, i);
      LessIsConnected(a[0], b[0]);
      NotBothLess(a[0], b[0]);
      assert a[0] == b[0];
      forall k
        ensures k in a[1..] <==> k in b[1..]
      {
        TailLosesFirst(a, k);
        TailLosesFirst(b, k);
      }
      SortedKeysAreUnique(a[1..], b[1..]);
      assert a == [a[0]] + a[1..] && b == [b[0]] + b[1..];
    }
  }

  lemma FirstIsLeast(a: seq<string>, j: nat)
    requires Ascending(a) && j < |a|
    ensures a[0] == a[j] || Less(a[0], a[j])
  {
  }

  lemma NotBothLess(a: string, b: string)
    ensures !(Less(a, b) && Less(b, a))
  {
    if Less(a, b) {
      LessIsAsymmetric(a, b);
    }
  }

  lemma TailLosesFirst(a: seq<string>, k: string)
    requires Ascending(a) && a != []
    ensures k in a[1..] <==> k in a && k != a[0]
  {
    LessIsIrreflexive(a[0]);
    assert a == [a[0]] + a[1..];
    if k in a[1..] {
      var i :| 0 <= i < |a[1..]| && a[1..][i] == k;
      assert Less(a[0], a[i + 1]);
    }
  }

  // ----------------------------------------------------- joined and ended --

  /** Parts with a separator between them. */
  function Join(parts: seq<string>, separator: char): string
    requires parts != []
  {
    if |parts| == 1 then parts[0] else parts[0] + [separator] + Join(parts[1..], separator)
  }

  lemma {:induction false} JoinContains(parts: seq<string>, separator: char)
    requires |parts| > 1
    ensures separator in Join(parts, separator)
  {
    assert Join(parts, separator)[|parts[0]|] == separator;
  }

  lemma {:induction false} JoinIsUnique(a: seq<string>, b: seq<string>, separator: char)
    requires a != [] && b != [] && Join(a, separator) == Join(b, separator)
    requires forall i | 0 <= i < |a| :: separator !in a[i]
    requires forall i | 0 <= i < |b| :: separator !in b[i]
    ensures a == b
  {
    if |a| > 1 {
      JoinContains(a, separator);
    }
    if |b| > 1 {
      JoinContains(b, separator);
    }
    assert |a| == 1 <==> |b| == 1;
    if |a| > 1 {
      CutIsUnique(a[0], Join(a[1..], separator), b[0], Join(b[1..], separator), separator);
      JoinIsUnique(a[1..], b[1..], separator);
      assert a == [a[0]] + a[1..] && b == [b[0]] + b[1..];
    } else {
      assert a == [a[0]] && b == [b[0]];
    }
  }

  /** Lines with a terminator after each. */
  function Lines(lines: seq<string>, terminator: char): string {
    if lines == [] then "" else lines[0] + [terminator] + Lines(lines[1..], terminator)
  }

  lemma {:induction false} LinesAreUnique(a: seq<string>, b: seq<string>, terminator: char)
    requires Lines(a, terminator) == Lines(b, terminator)
    requires forall i | 0 <= i < |a| :: terminator !in a[i]
    requires forall i | 0 <= i < |b| :: terminator !in b[i]
    ensures a == b
  {
    if a != [] && b != [] {
      CutIsUnique(a[0], Lines(a[1..], terminator), b[0], Lines(b[1..], terminator), terminator);
      LinesAreUnique(a[1..], b[1..], terminator);
      assert a == [a[0]] + a[1..] && b == [b[0]] + b[1..];
    }
  }

  // ------------------------------------------------------------ generations --

  const Nul: char := '\U{0}'

  /** The separated parts of a generation: its payload, then each attachment after its UID, then
      the Secret checksum. */
  function Pairs(attachments: map<string, string>, uids: seq<string>): seq<string>
    requires forall i | 0 <= i < |uids| :: uids[i] in attachments
  {
    if uids == [] then []
    else Pairs(attachments, uids[..|uids| - 1]) + [uids[|uids| - 1], attachments[uids[|uids| - 1]]]
  }

  /** What one round of the attachment loop writes. */
  function Written(attachments: map<string, string>, uids: seq<string>): string
    requires forall i | 0 <= i < |uids| :: uids[i] in attachments
  {
    if uids == [] then ""
    else Written(attachments, uids[..|uids| - 1]) + [Nul] + uids[|uids| - 1] + [Nul] + attachments[uids[|uids| - 1]]
  }

  /** The text `GenerationID` hashes. */
  ghost predicate IsGenerationText(payload: string, attachments: map<string, string>, checksum: string, text: string) {
    forall uids | SortedKeys(attachments, uids) :: text == payload + Written(attachments, uids) + [Nul] + checksum
  }

  method GenerationText(payload: string, attachments: map<string, string>, checksum: string) returns (text: string)
    ensures IsGenerationText(payload, attachments, checksum, text)
  {
    var keys := SortKeys(attachments);
    text := payload;
    for i := 0 to |keys|
      invariant text == payload + Written(attachments, keys[..i])
    {
      assert keys[..i + 1][..i] == keys[..i];
      text := text + [Nul] + keys[i] + [Nul];
      text := text + attachments[keys[i]];
    }
    assert keys[..|keys|] == keys;
    text := text + [Nul] + checksum;
    forall uids | SortedKeys(attachments, uids)
      ensures uids == keys
    {
      SortedKeysAreUnique(uids, keys);
    }
  }

  lemma {:induction false} JoinEnds(parts: seq<string>, last: string, separator: char)
    requires parts != []
    ensures Join(parts + [last], separator) == Join(parts, separator) + [separator] + last
  {
    var all := parts + [last];
    if |parts| == 1 {
      assert all[1..] == [last];
    } else {
      assert all[1..] == parts[1..] + [last];
      JoinEnds(parts[1..], last, separator);
      assert parts[0] + [separator] + (Join(parts[1..], separator) + [separator] + last) ==
             parts[0] + [separator] + Join(parts[1..], separator) + [separator] + last;
    }
  }

  lemma {:induction false} WrittenIsJoined(payload: string, attachments: map<string, string>, uids: seq<string>)
    requires forall i | 0 <= i < |uids| :: uids[i] in attachments
    ensures payload + Written(attachments, uids) == Join([payload] + Pairs(attachments, uids), Nul)
  {
    if uids == [] {
      assert [payload] + Pairs(attachments, uids) == [payload];
    } else {
      var n := |uids| - 1;
      var front, uid := uids[..n], uids[n];
      var parts, text := [payload] + Pairs(attachments, front), payload + Written(attachments, front);
      assert text == Join(parts, Nul) by { WrittenIsJoined(payload, attachments, front); }
      PairIsJoined(parts, uid, attachments[uid]);
      RegroupParts(payload, Pairs(attachments, front), uid, attachments[uid]);
      RegroupText(payload, Written(attachments, front), uid, attachments[uid]);
    }
  }

  lemma RegroupParts(payload: string, pairs: seq<string>, a: string, b: string)
    ensures [payload] + (pairs + [a, b]) == [payload] + pairs + [a, b]
  {
  }

  lemma RegroupText(payload: string, written: string, a: string, b: string)
    ensures payload + (written + [Nul] + a + [Nul] + b) == payload + written + [Nul] + a + [Nul] + b
  {
  }

  lemma PairIsJoined(parts: seq<string>, a: string, b: string)
    requires parts != []
    ensures Join(parts + [a, b], Nul) == Join(parts, Nul) + [Nul] + a + [Nul] + b
  {
    JoinEnds(parts, a, Nul);
    JoinEnds(parts + [a], b, Nul);
    assert parts + [a, b] == parts + [a] + [b];
  }

  lemma {:induction false} PairsAreUnique(a: map<string, string>, u: seq<string>, b: map<string, string>, v: seq<string>)
    requires forall x | 0 <= x < |u| :: u[x] in a
    requires forall x | 0 <= x < |v| :: v[x] in b
    requires Pairs(a, u) == Pairs(b, v)
    ensures u == v && forall x | 0 <= x < |u| :: a[u[x]] == b[u[x]]
  {
    if u != [] && v != [] {
      var m, n := |u| - 1, |v| - 1;
      var p, q := Pairs(a, u), Pairs(b, v);
      assert p[..|p| - 2] == Pairs(a, u[..m]) && q[..|q| - 2] == Pairs(b, v[..n]);
      assert p[|p| - 2] == u[m] && p[|p| - 1] == a[u[m]] && q[|q| - 2] == v[n] && q[|q| - 1] == b[v[n]];
      PairsAreUnique(a, u[..m], b, v[..n]);
      assert u == u[..m] + [u[m]] && v == v[..n] + [v[n]];
    }
  }

  lemma {:induction false} PairsHoldNoNul(attachments: map<string, string>, uids: seq<string>)
    requires forall i | 0 <= i < |uids| :: uids[i] in attachments && Nul !in uids[i] && Nul !in attachments[uids[i]]
    ensures forall i | 0 <= i < |Pairs(attachments, uids)| :: Nul !in Pairs(attachments, uids)[i]
  {
    if uids != [] {
      PairsHoldNoNul(attachments, uids[..|uids| - 1]);
    }
  }

  /** Payloads are JSON, UIDs and checksums plain text: none holds a NUL. */
  ghost predicate NulFree(payload: string, attachments: map<string, string>, checksum: string) {
    Nul !in payload && Nul !in checksum && forall uid | uid in attachments :: Nul !in uid && Nul !in attachments[uid]
  }

  lemma TextIsJoined(payload: string, attachments: map<string, string>, checksum: string, uids: seq<string>)
    requires NulFree(payload, attachments, checksum) && SortedKeys(attachments, uids)
    ensures
      var parts := [payload] + Pairs(attachments, uids) + [checksum];
      && payload + Written(attachments, uids) + [Nul] + checksum == Join(parts, Nul)
      && forall i | 0 <= i < |parts| :: Nul !in parts[i]
  {
    var parts := [payload] + Pairs(attachments, uids) + [checksum];
    WrittenIsJoined(payload, attachments, uids);
    JoinEnds([payload] + Pairs(attachments, uids), checksum, Nul);
    PairsHoldNoNul(attachments, uids);
  }

  lemma PairsDetermine(a: map<string, string>, u: seq<string>, b: map<string, string>, v: seq<string>)
    requires SortedKeys(a, u) && SortedKeys(b, v) && Pairs(a, u) == Pairs(b, v)
    ensures a == b
  {
    PairsAreUnique(a, u, b, v);
    assert a.Keys == b.Keys;
    forall uid | uid in a
      ensures a[uid] == b[uid]
    {
      assert uid in u;
    }
  }

  /** Two publications whose hashed texts are equal have the same gateway payload, the same
      attachments and the same Secret checksum, whatever order their maps were walked in. */
  lemma GenerationTextIsDecodable(payload: string, a: map<string, string>, checksum: string, u: seq<string>,
                                  payload': string, b: map<string, string>, checksum': string, v: seq<string>)
    requires NulFree(payload, a, checksum) && NulFree(payload', b, checksum')
    requires SortedKeys(a, u) && SortedKeys(b, v)
    requires payload + Written(a, u) + [Nul] + checksum == payload' + Written(b, v) + [Nul] + checksum'
    ensures payload == payload' && a == b && checksum == checksum'
  {
    TextIsJoined(payload, a, checksum, u);
    TextIsJoined(payload', b, checksum', v);
    var parts, parts' := [payload] + Pairs(a, u) + [checksum], [payload'] + Pairs(b, v) + [checksum'];
    JoinIsUnique(parts, parts', Nul);
    assert parts[0] == payload && parts'[0] == payload';
    assert parts[|parts| - 1] == checksum && parts'[|parts'| - 1] == checksum';
    assert parts[1..|parts| - 1] == Pairs(a, u) && parts'[1..|parts'| - 1] == Pairs(b, v);
    PairsDetermine(a, u, b, v);
  }

  // --------------------------------------------------------- Secret checksums --

  /** A hash in hexadecimal: 64 characters, no line feed. */
  ghost predicate IsHexHash(h: string -> string) {
    forall x :: |h(x)| == 64 && '\n' !in h(x)
  }

  /** The hash tells the values of two Secrets apart. */
  ghost predicate NoCollision(h: string -> string, a: map<string, string>, b: map<string, string>) {
    forall k, l | k in a && l in b && h(a[k]) == h(b[l]) :: a[k] == b[l]
  }

  function SecretLine(h: string -> string, key: string, value: string): string {
    key + "=" + h(value)
  }

  function SecretLines(h: string -> string, data: map<string, string>, keys: seq<string>): seq<string>
    requires forall i | 0 <= i < |keys| :: keys[i] in data
  {
    seq(|keys|, i requires 0 <= i < |keys| => SecretLine(h, keys[i], data[keys[i]]))
  }

  lemma {:induction false} LinesEnd(lines: seq<string>, last: string, terminator: char)
    ensures Lines(lines + [last], terminator) == Lines(lines, terminator) + last + [terminator]
  {
    var all := lines + [last];
    if lines == [] {
      assert all == [last];
      assert Lines([last], terminator) == last + [terminator] + Lines([], terminator);
    } else {
      assert all[1..] == lines[1..] + [last];
      LinesEnd(lines[1..], last, terminator);
      RegroupLines(lines[0], Lines(lines[1..], terminator), last, terminator);
    }
  }

  lemma RegroupLines(first: string, middle: string, last: string, terminator: char)
    ensures first + [terminator] + (middle + last + [terminator]) == first + [terminator] + middle + last + [terminator]
  {
  }

  /** The text `ChecksumSecret` hashes. */
  method SecretText(h: string -> string, data: map<string, string>) returns (text: string)
    ensures forall keys | SortedKeys(data, keys) :: text == Lines(SecretLines(h, data, keys), '\n')
  {
    var keys := SortKeys(data);
    text := "";
    for i := 0 to |keys|
      invariant text == Lines(SecretLines(h, data, keys[..i]), '\n')
    {
      SecretTextGrows(h, data, keys, i);
      text := text + SecretLine(h, keys[i], data[keys[i]]) + "\n";
    }
    assert keys[..|keys|] == keys;
    SecretTextIsOne(h, data, keys);
  }

  lemma SecretTextGrows(h: string -> string, data: map<string, string>, keys: seq<string>, i: nat)
    requires i < |keys| && forall j | 0 <= j < |keys| :: keys[j] in data
    ensures Lines(SecretLines(h, data, keys[..i + 1]), '\n') ==
            Lines(SecretLines(h, data, keys[..i]), '\n') + SecretLine(h, keys[i], data[keys[i]]) + "\n"
  {
    var line := SecretLine(h, keys[i], data[keys[i]]);
    LinesEnd(SecretLines(h, data, keys[..i]), line, '\n');
    assert SecretLines(h, data, keys[..i + 1]) == SecretLines(h, data, keys[..i]) + [line];
  }

  lemma SecretTextIsOne(h: string -> string, data: map<string, string>, keys: seq<string>)
    requires SortedKeys(data, keys)
    ensures forall other | SortedKeys(data, other) :: Lines(SecretLines(h, data, other), '\n') == Lines(SecretLines(h, data, keys), '\n')
  {
    forall other | SortedKeys(data, other)
      ensures other == keys
    {
      SortedKeysAreUnique(other, keys);
    }
  }

  lemma SecretLineIsDecodable(h: string -> string, key: string, value: string, key': string, value': string)
    requires IsHexHash(h) && SecretLine(h, key, value) == SecretLine(h, key', value')
    ensures key == key' && h(value) == h(value')
  {
    var a, b := SecretLine(h, key, value), SecretLine(h, key', value');
    assert a[|a| - 64..] == h(value) && b[|b| - 64..] == h(value');
    assert a[..|a| - 65] == key && b[..|b| - 65] == key';
  }

  lemma SecretLinesHoldNoFeed(h: string -> string, data: map<string, string>, keys: seq<string>)
    requires IsHexHash(h) && forall i | 0 <= i < |keys| :: keys[i] in data && '\n' !in keys[i]
    ensures forall i | 0 <= i < |keys| :: '\n' !in SecretLines(h, data, keys)[i]
  {
    forall i | 0 <= i < |keys|
      ensures '\n' !in SecretLines(h, data, keys)[i]
    {
      assert '\n' !in h(data[keys[i]]);
    }
  }

  /** Two Secrets with equal hashed texts hold the same data. Secret keys hold no line feed. */
  lemma SecretTextIsDecodable(h: string -> string, a: map<string, string>, u: seq<string>, b: map<string, string>, v: seq<string>)
    requires IsHexHash(h) && NoCollision(h, a, b) && SortedKeys(a, u) && SortedKeys(b, v)
    requires (forall key | key in a :: '\n' !in key) && (forall key | key in b :: '\n' !in key)
    requires Lines(SecretLines(h, a, u), '\n') == Lines(SecretLines(h, b, v), '\n')
    ensures a == b
  {
    SecretLinesHoldNoFeed(h, a, u);
    SecretLinesHoldNoFeed(h, b, v);
    LinesAreUnique(SecretLines(h, a, u), SecretLines(h, b, v), '\n');
    forall i | 0 <= i < |u|
      ensures u[i] == v[i] && a[u[i]] == b[u[i]]
    {
      assert SecretLines(h, a, u)[i] == SecretLines(h, b, v)[i];
      SecretLineIsDecodable(h, u[i], a[u[i]], v[i], b[v[i]]);
    }
    assert u == v;
    assert a.Keys == b.Keys;
    forall key | key in a
      ensures a[key] == b[key]
    {
      assert key in u;
    }
  }

  // ------------------------------------------------------------------ names --

  /** Object names as rendered, given how a generation identifier reads. */
  function NameText(id: Generation -> string, name: Name): string {
    match name
    case ManifestName(uid) => "krouter-manifest-" + uid
    case GatewayConfigName(uid, generation) => "krouter-gwcfg-" + uid + "-" + id(generation)
    case AttachmentName(uid, route, generation) => "krouter-att-" + uid + "-" + route + "-" + id(generation)
    case TlsSecretName(uid, generation) => "krouter-tls-" + uid + "-" + id(generation)
  }

  /** UIDs have 36 characters. */
  predicate ProperName(name: Name) {
    |name.uid| == 36 && (name.AttachmentName? ==> |name.routeUid| == 36)
  }

  /** Identifiers have 12 characters. */
  ghost predicate IsIdentifier(id: Generation -> string) {
    forall g :: |id(g)| == 12
  }

  /** The identifier tells the generations of two names apart. */
  predicate IdentifiesBoth(id: Generation -> string, a: Name, b: Name) {
    !a.ManifestName? && !b.ManifestName? && id(a.generation) == id(b.generation) ==> a.generation == b.generation
  }

  /** Where the parts of a name are found in its text. */
  lemma NamePartsAreFixed(id: Generation -> string, name: Name)
    requires IsIdentifier(id) && ProperName(name)
    ensures
      var t := NameText(id, name);
      && |t| > 8
      && t[8] == (match name case ManifestName(_) => 'm' case GatewayConfigName(_, _) => 'g' case AttachmentName(_, _, _) => 'a' case TlsSecretName(_, _) => 't')
      && (name.ManifestName? ==> t[17..] == name.uid)
      && (name.GatewayConfigName? ==> |t| == 63 && t[14..50] == name.uid && t[51..] == id(name.generation))
      && (name.AttachmentName? ==> |t| == 98 && t[12..48] == name.uid && t[49..85] == name.routeUid && t[86..] == id(name.generation))
      && (name.TlsSecretName? ==> |t| == 61 && t[12..48] == name.uid && t[49..] == id(name.generation))
  {
    assert |id(NoGeneration)| == 12;
    match name
    case ManifestName(uid) =>
    case GatewayConfigName(uid, generation) => assert |id(generation)| == 12;
    case AttachmentName(uid, route, generation) => assert |id(generation)| == 12;
    case TlsSecretName(uid, generation) => assert |id(generation)| == 12;
  }

  /** Distinct objects have distinct names, so an existing name is the object itself. */
  lemma NamesAreDistinct(id: Generation -> string, a: Name, b: Name)
    requires IsIdentifier(id) && IdentifiesBoth(id, a, b)
    requires ProperName(a) && ProperName(b) && NameText(id, a) == NameText(id, b)
    ensures a == b
  {
    NamePartsAreFixed(id, a);
    NamePartsAreFixed(id, b);
  }

  // -------------------------------------------------------------- snapshots --

  datatype Item = Item(name: string, version: string)

  function ItemText(item: Item): string {
    item.name + "/" + item.version
  }

  function ItemTexts(items: seq<Item>): seq<string> {
    seq(|items|, i requires 0 <= i < |items| => ItemText(items[i]))
  }

  /** The change detector of the watcher: every name and version of both lists. */
  method SnapshotText(cms: seq<Item>, secrets: seq<Item>) returns (text: string)
    ensures text == Lines(ItemTexts(cms + secrets), ';')
  {
    text := "";
    var all := cms + secrets;
    for i := 0 to |all|
      invariant text == Lines(ItemTexts(all[..i]), ';')
    {
      LinesEnd(ItemTexts(all[..i]), ItemText(all[i]), ';');
      assert ItemTexts(all[..i + 1]) == ItemTexts(all[..i]) + [ItemText(all[i])];
      text := text + all[i].name + "/" + all[i].version + ";";
    }
    assert all[..|all|] == all;
  }

  predicate PlainItem(item: Item) {
    '/' !in item.name && ';' !in item.name && ';' !in item.version
  }

  lemma ItemsAreDecodable(a: seq<Item>, b: seq<Item>)
    requires forall i | 0 <= i < |a| :: PlainItem(a[i])
    requires forall i | 0 <= i < |b| :: PlainItem(b[i])
    requires Lines(ItemTexts(a), ';') == Lines(ItemTexts(b), ';')
    ensures a == b
  {
    LinesAreUnique(ItemTexts(a), ItemTexts(b), ';');
    forall i | 0 <= i < |a|
      ensures a[i] == b[i]
    {
      assert ItemTexts(a)[i] == ItemTexts(b)[i];
      CutIsUnique(a[i].name, a[i].version, b[i].name, b[i].version, '/');
    }
  }

  predicate NamesSecret(item: Item) {
    HasPrefix(item.name, "krouter-tls-")
  }

  /** Equal snapshot texts mean equal names and versions in both lists: Secret names are told
      from ConfigMap names by their prefix. */
  lemma SnapshotTextIsDecodable(cms: seq<Item>, secrets: seq<Item>, cms': seq<Item>, secrets': seq<Item>)
    requires forall i | 0 <= i < |cms| :: PlainItem(cms[i]) && !NamesSecret(cms[i])
    requires forall i | 0 <= i < |secrets| :: PlainItem(secrets[i]) && NamesSecret(secrets[i])
    requires forall i | 0 <= i < |cms'| :: PlainItem(cms'[i]) && !NamesSecret(cms'[i])
    requires forall i | 0 <= i < |secrets'| :: PlainItem(secrets'[i]) && NamesSecret(secrets'[i])
    requires Lines(ItemTexts(cms + secrets), ';') == Lines(ItemTexts(cms' + secrets'), ';')
    ensures cms == cms' && secrets == secrets'
  {
    ItemsAreDecodable(cms + secrets, cms' + secrets');
    var all := cms + secrets;
    assert |cms| < |all| ==> NamesSecret(all[|cms|]);
    assert |cms'| < |all| ==> NamesSecret(all[|cms'|]);
    assert forall i | 0 <= i < |cms| :: !NamesSecret(all[i]);
    assert forall i | 0 <= i < |cms'| :: !NamesSecret(all[i]);
    assert |cms| == |cms'|;
    assert all[..|cms|] == cms && all[..|cms'|] == cms';
    assert all[|cms|..] == secrets && all[|cms'|..] == secrets';
  }
}
