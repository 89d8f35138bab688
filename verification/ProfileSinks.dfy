/** Two stores for cloud profiles and their secrets, a file and a database table, and
    the plain store of secrets that both are meant to be. */
module ProfileSinks {
  import opened Text

  datatype Profile = Profile(id: string, name: string, status: string)

  datatype Secret = Secret(privateKey: string, privateKeyFile: string)

  /** Encryption under a fixed key, and the text encoding of the file. Sealing takes a nonce. */
  datatype Cipher = Cipher(
    seal: (nat, string) -> string, open: string -> Option<string>,
    encode: string -> string, decode: string -> Option<string>)

  predicate Blank(s: string) {
    TrimSpace(s) == ""
  }

  ghost predicate Sound(c: Cipher) {
    && (forall nonce, text :: c.open(c.seal(nonce, text)) == Some(text) && c.seal(nonce, text) != "")
    && (forall raw :: c.decode(c.encode(raw)) == Some(raw))
    && (forall raw :: raw != "" ==> !Blank(c.encode(raw)))
  }

  datatype Op = Save(profile: Profile, secret: Secret, nonce: nat) | Delete(id: string) | ReadSecret(id: string)

  datatype Reply = Done | Found(secret: Secret) | Missing | KeyRequired | Corrupt | NameTaken

  // The plain store --------------------------------------------------------------------

  datatype Entry = Entry(name: string, secret: Secret)

  function OldSecret(store: map<string, Entry>, id: string): Secret {
    if id in store then store[id].secret else Secret("", "")
  }

  /** Blank fields keep the old value; a path loses its surrounding spaces. */
  function Merged(old_: Secret, new_: Secret): Secret {
    Secret(if Blank(new_.privateKey) then old_.privateKey else new_.privateKey,
           if Blank(new_.privateKeyFile) then old_.privateKeyFile else TrimSpace(new_.privateKeyFile))
  }

  function StoreStep(store: map<string, Entry>, hasKey: bool, op: Op): (map<string, Entry>, Reply) {
    match op
    case Save(profile, secret, _) =>
      if !Blank(secret.privateKey) && !hasKey then (store, KeyRequired)
      else (store[profile.id := Entry(profile.name, Merged(OldSecret(store, profile.id), secret))], Done)
    case Delete(id) => (store - {id}, Done)
    case ReadSecret(id) => (store, if id in store then Found(store[id].secret) else Missing)
  }

  // The file ------------------------------------------------------------------------------

  datatype FileRow = FileRow(profile: Profile, ciphertext: string, keyFile: string)

  /** The row that a save leaves; sealing needs the key. */
  function SavedFileRow(row: FileRow, key: Option<Cipher>, profile: Profile, secret: Secret, nonce: nat): FileRow
    requires Blank(secret.privateKey) || key.Some?
  {
    FileRow(profile,
            if Blank(secret.privateKey) then row.ciphertext else key.value.encode(key.value.seal(nonce, secret.privateKey)),
            if Blank(secret.privateKeyFile) then row.keyFile else TrimSpace(secret.privateKeyFile))
  }

  function FileRowReply(row: FileRow, key: Option<Cipher>): Reply {
    if Blank(row.ciphertext) then Found(Secret("", row.keyFile))
    else if key.None? then KeyRequired
    else
      var raw := key.value.decode(row.ciphertext);
      if raw.None? then Corrupt
      else
        var text := key.value.open(raw.value);
        if text.None? then Corrupt else Found(Secret(text.value, row.keyFile))
  }

  function FileSave(rows: map<string, FileRow>, key: Option<Cipher>, profile: Profile, secret: Secret, nonce: nat): (map<string, FileRow>, Reply) {
    if Blank(profile.id) then (rows, Done)
    else if !Blank(secret.privateKey) && key.None? then (rows, KeyRequired)
    else
      var row := if profile.id in rows then rows[profile.id] else FileRow(profile, "", "");
      (rows[profile.id := SavedFileRow(row, key, profile, secret, nonce)], Done)
  }

  function FileRead(rows: map<string, FileRow>, key: Option<Cipher>, id: string): Reply {
    if id !in rows then Missing else FileRowReply(rows[id], key)
  }

  function FileStep(rows: map<string, FileRow>, key: Option<Cipher>, op: Op): (map<string, FileRow>, Reply) {
    match op
    case Save(profile, secret, nonce) => FileSave(rows, key, profile, secret, nonce)
    case Delete(id) => (rows - {id}, Done)
    case ReadSecret(id) => (rows, FileRead(rows, key, id))
  }

  class FileSink {
    var profiles: map<string, FileRow>
    const encryptor: Option<Cipher>

    constructor (encryptor: Option<Cipher>)
      ensures profiles == map[] && this.encryptor == encryptor
    {
      this.encryptor := encryptor;
      profiles := map[];
    }

    method SaveProfile(profile: Profile, secret: Secret, nonce: nat) returns (reply: Reply)
      modifies this
      ensures (profiles, reply) == FileStep(old(profiles), encryptor, Save(profile, secret, nonce))
    {
      hide Blank, TrimSpace;
      if Blank(profile.id) {
        return Done;
      }
      var row := FileRow(profile, "", "");
      if profile.id in profiles {
        row := profiles[profile.id];
      }
      row := row.(profile := profile);
      if !Blank(secret.privateKey) {
        if encryptor.None? {
          return KeyRequired;
        }
        var ciphertext := encryptor.value.seal(nonce, secret.privateKey);
        row := row.(ciphertext := encryptor.value.encode(ciphertext));
      }
      if !Blank(secret.privateKeyFile) {
        row := row.(keyFile := TrimSpace(secret.privateKeyFile));
      }
      profiles := profiles[profile.id := row];
      reply := Done;
    }

    method DeleteProfile(id: string) returns (reply: Reply)
      modifies this
      ensures (profiles, reply) == FileStep(old(profiles), encryptor, Delete(id))
    {
      profiles := profiles - {id};
      reply := Done;
    }

    method GetProfileSecret(id: string) returns (reply: Reply)
      ensures (profiles, reply) == FileStep(profiles, encryptor, ReadSecret(id))
    {
      hide Blank;
      if id !in profiles {
        return Missing;
      }
      var row := profiles[id];
      var secret := Secret("", row.keyFile);
      if !Blank(row.ciphertext) {
        if encryptor.None? {
          return KeyRequired;
        }
        var raw := encryptor.value.decode(row.ciphertext);
        if raw.None? {
          return Corrupt;
        }
        var text := encryptor.value.open(raw.value);
        if text.None? {
          return Corrupt;
        }
        secret := secret.(privateKey := text.value);
      }
      reply := Found(secret);
    }
  }

  // The table --------------------------------------------------------------------------------

  datatype TableRow = TableRow(profile: Profile, ciphertext: Option<string>, keyFile: Option<string>)

  /** The unique index on names. */
  predicate NameClash(table: map<string, TableRow>, profile: Profile) {
    exists id :: id in table && id != profile.id && table[id].profile.name == profile.name
  }

  function Coalesce(a: Option<string>, b: Option<string>): Option<string> {
    if a.Some? then a else b
  }

  function NullableString(s: string): Option<string> {
    if s == "" then None else Some(s)
  }

  /** New nulls keep the old columns. */
  function MergedRow(row: TableRow, existing: Option<TableRow>): TableRow {
    if existing.None? then row
    else TableRow(row.profile, Coalesce(row.ciphertext, existing.value.ciphertext), Coalesce(row.keyFile, existing.value.keyFile))
  }

  /** Insert, or on a conflict of identifiers update. */
  function Upsert(table: map<string, TableRow>, row: TableRow): (map<string, TableRow>, Reply) {
    var id := row.profile.id;
    if NameClash(table, row.profile) then (table, NameTaken)
    else (table[id := MergedRow(row, if id in table then Some(table[id]) else None)], Done)
  }

  function NewTableRow(key: Option<Cipher>, profile: Profile, secret: Secret, nonce: nat): TableRow
    requires Blank(secret.privateKey) || key.Some?
  {
    TableRow(profile,
             if Blank(secret.privateKey) then None else Some(key.value.seal(nonce, secret.privateKey)),
             NullableString(secret.privateKeyFile))
  }

  function TableSave(table: map<string, TableRow>, key: Option<Cipher>, profile: Profile, secret: Secret, nonce: nat): (map<string, TableRow>, Reply) {
    if !Blank(secret.privateKey) && key.None? then (table, KeyRequired)
    else Upsert(table, NewTableRow(key, profile, secret, nonce))
  }

  function TableRowReply(row: TableRow, key: Option<Cipher>): Reply {
    var keyFile := if row.keyFile.Some? then row.keyFile.value else "";
    if row.ciphertext.None? || row.ciphertext.value == "" then Found(Secret("", keyFile))
    else if key.None? then KeyRequired
    else
      var text := key.value.open(row.ciphertext.value);
      if text.None? then Corrupt else Found(Secret(text.value, keyFile))
  }

  function TableRead(table: map<string, TableRow>, key: Option<Cipher>, id: string): Reply {
    if id !in table then Missing else TableRowReply(table[id], key)
  }

  function TableStep(table: map<string, TableRow>, key: Option<Cipher>, op: Op): (map<string, TableRow>, Reply) {
    match op
    case Save(profile, secret, nonce) => TableSave(table, key, profile, secret, nonce)
    case Delete(id) => (table - {id}, Done)
    case ReadSecret(id) => (table, TableRead(table, key, id))
  }

  class PostgresSink {
    var table: map<string, TableRow>
    const encryptor: Option<Cipher>

    constructor (encryptor: Option<Cipher>)
      ensures table == map[] && this.encryptor == encryptor
    {
      this.encryptor := encryptor;
      table := map[];
    }

    method SaveProfile(profile: Profile, secret: Secret, nonce: nat) returns (reply: Reply)
      modifies this
      ensures (table, reply) == TableStep(old(table), encryptor, Save(profile, secret, nonce))
    {
      hide Blank;
      var ciphertext: Option<string> := None;
      if !Blank(secret.privateKey) {
        if encryptor.None? {
          return KeyRequired;
        }
        ciphertext := Some(encryptor.value.seal(nonce, secret.privateKey));
      }
      var (next, outcome) := Upsert(table, TableRow(profile, ciphertext, NullableString(secret.privateKeyFile)));
      table := next;
      reply := outcome;
    }

    method DeleteProfile(id: string) returns (reply: Reply)
      modifies this
      ensures (table, reply) == TableStep(old(table), encryptor, Delete(id))
    {
      table := table - {id};
      reply := Done;
    }

    method GetProfileSecret(id: string) returns (reply: Reply)
      ensures (table, reply) == TableStep(table, encryptor, ReadSecret(id))
    {
      if id !in table {
        return Missing;
      }
      var row := table[id];
      var secret := Secret("", "");
      if row.ciphertext.Some? && row.ciphertext.value != "" {
        if encryptor.None? {
          return KeyRequired;
        }
        var text := encryptor.value.open(row.ciphertext.value);
        if text.None? {
          return Corrupt;
        }
        secret := secret.(privateKey := text.value);
      }
      if row.keyFile.Some? {
        secret := secret.(privateKeyFile := row.keyFile.value);
      }
      reply := Found(secret);
    }
  }

  // Both show the plain store ------------------------------------------------------------------

  ghost predicate KeySound(key: Option<Cipher>) {
    key.Some? ==> Sound(key.value)
  }

  ghost predicate FileShows(rows: map<string, FileRow>, key: Option<Cipher>, store: map<string, Entry>) {
    && rows.Keys == store.Keys
    && forall id :: id in rows ==> rows[id].profile.name == store[id].name && FileRead(rows, key, id) == Found(store[id].secret)
  }

  ghost predicate TableShows(table: map<string, TableRow>, key: Option<Cipher>, store: map<string, Entry>) {
    && table.Keys == store.Keys
    && forall id :: id in table ==> table[id].profile.name == store[id].name && TableRead(table, key, id) == Found(store[id].secret)
  }

  /** No other entry has the name of a profile that is saved. */
  predicate NameFree(store: map<string, Entry>, profile: Profile) {
    forall id :: id in store && id != profile.id ==> store[id].name != profile.name
  }

  /** A save whose identifier is not blank, whose key-file path has no surrounding space,
      and whose name is free. */
  predicate Clean(store: map<string, Entry>, op: Op) {
    op.Save? ==> !Blank(op.profile.id) && TrimSpace(op.secret.privateKeyFile) == op.secret.privateKeyFile && NameFree(store, op.profile)
  }

  lemma BlankOrKept(path: string)
    ensures TrimSpace(path) == path ==> (Blank(path) <==> path == "")
    ensures Blank(path) <==> TrimSpace(path) == ""
    ensures Blank("")
  {
  }

  lemma SavedFileRowReply(row: FileRow, key: Option<Cipher>, old_: Secret, profile: Profile, secret: Secret, nonce: nat)
    requires KeySound(key) && FileRowReply(row, key) == Found(old_)
    requires Blank(secret.privateKey) || key.Some?
    ensures FileRowReply(SavedFileRow(row, key, profile, secret, nonce), key) == Found(Merged(old_, secret))
  {
    hide Blank, TrimSpace;
  }

  lemma EmptyFileRowReply(profile: Profile, key: Option<Cipher>)
    ensures FileRowReply(FileRow(profile, "", ""), key) == Found(Secret("", ""))
  {
    hide Blank;
    BlankOrKept("");
  }

  lemma FileStepShows(rows: map<string, FileRow>, key: Option<Cipher>, store: map<string, Entry>, op: Op)
    requires KeySound(key) && FileShows(rows, key, store)
    requires op.Save? ==> !Blank(op.profile.id)
    ensures var (rows', reply) := FileStep(rows, key, op);
      var (store', expected) := StoreStep(store, key.Some?, op);
      reply == expected && FileShows(rows', key, store')
  {
    hide Blank, TrimSpace, FileRowReply, Merged, KeySound;
    if op.Save? && (Blank(op.secret.privateKey) || key.Some?) {
      EmptyFileRowReply(op.profile, key);
      var row := if op.profile.id in rows then rows[op.profile.id] else FileRow(op.profile, "", "");
      SavedFileRowReply(row, key, OldSecret(store, op.profile.id), op.profile, op.secret, op.nonce);
    }
  }

  lemma MergedRowReply(existing: Option<TableRow>, key: Option<Cipher>, old_: Secret, profile: Profile, secret: Secret, nonce: nat)
    requires KeySound(key) && (Blank(secret.privateKey) || key.Some?)
    requires if existing.Some? then TableRowReply(existing.value, key) == Found(old_) else old_ == Secret("", "")
    requires TrimSpace(secret.privateKeyFile) == secret.privateKeyFile
    ensures TableRowReply(MergedRow(NewTableRow(key, profile, secret, nonce), existing), key) == Found(Merged(old_, secret))
  {
    hide Blank, TrimSpace;
    BlankOrKept(secret.privateKeyFile);
  }

  lemma ClashMeansNameTaken(table: map<string, TableRow>, key: Option<Cipher>, store: map<string, Entry>, profile: Profile)
    requires TableShows(table, key, store)
    ensures NameClash(table, profile) <==> !NameFree(store, profile)
  {
    hide TableRead;
  }

  lemma TableStepShows(table: map<string, TableRow>, key: Option<Cipher>, store: map<string, Entry>, op: Op)
    requires KeySound(key) && TableShows(table, key, store) && Clean(store, op)
    ensures var (table', reply) := TableStep(table, key, op);
      var (store', expected) := StoreStep(store, key.Some?, op);
      reply == expected && TableShows(table', key, store')
  {
    hide Blank, TrimSpace, TableRowReply, Merged, KeySound, MergedRow, NewTableRow, NameClash, NameFree;
    if op.Save? && (Blank(op.secret.privateKey) || key.Some?) {
      ClashMeansNameTaken(table, key, store, op.profile);
      var existing := if op.profile.id in table then Some(table[op.profile.id]) else None;
      MergedRowReply(existing, key, OldSecret(store, op.profile.id), op.profile, op.secret, op.nonce);
      MergedRowKeepsName(NewTableRow(key, op.profile, op.secret, op.nonce), existing);
      NewRowHasProfile(key, op.profile, op.secret, op.nonce);
    }
  }

  lemma MergedRowKeepsName(row: TableRow, existing: Option<TableRow>)
    ensures MergedRow(row, existing).profile == row.profile
  {
  }

  lemma NewRowHasProfile(key: Option<Cipher>, profile: Profile, secret: Secret, nonce: nat)
    requires Blank(secret.privateKey) || key.Some?
    ensures NewTableRow(key, profile, secret, nonce).profile == profile
  {
  }

  function StoreReplies(store: map<string, Entry>, hasKey: bool, ops: seq<Op>): seq<Reply>
    decreases |ops|
  {
    if ops == [] then []
    else var (next, reply) := StoreStep(store, hasKey, ops[0]); [reply] + StoreReplies(next, hasKey, ops[1..])
  }

  function FileReplies(rows: map<string, FileRow>, key: Option<Cipher>, ops: seq<Op>): seq<Reply>
    decreases |ops|
  {
    if ops == [] then []
    else var (next, reply) := FileStep(rows, key, ops[0]); [reply] + FileReplies(next, key, ops[1..])
  }

  function TableReplies(table: map<string, TableRow>, key: Option<Cipher>, ops: seq<Op>): seq<Reply>
    decreases |ops|
  {
    if ops == [] then []
    else var (next, reply) := TableStep(table, key, ops[0]); [reply] + TableReplies(next, key, ops[1..])
  }

  predicate NonBlankIds(ops: seq<Op>) {
    forall i :: 0 <= i < |ops| && ops[i].Save? ==> !Blank(ops[i].profile.id)
  }

  predicate AllClean(store: map<string, Entry>, hasKey: bool, ops: seq<Op>)
    decreases |ops|
  {
    ops != [] ==> Clean(store, ops[0]) && AllClean(StoreStep(store, hasKey, ops[0]).0, hasKey, ops[1..])
  }

  lemma {:induction false} FileRefinesStore(rows: map<string, FileRow>, key: Option<Cipher>, store: map<string, Entry>, ops: seq<Op>)
    requires KeySound(key) && FileShows(rows, key, store) && NonBlankIds(ops)
    ensures FileReplies(rows, key, ops) == StoreReplies(store, key.Some?, ops)
    decreases |ops|
  {
    hide FileShows, FileStep, StoreStep, KeySound, Blank;
    if ops != [] {
      FileStepShows(rows, key, store, ops[0]);
      FileRefinesStore(FileStep(rows, key, ops[0]).0, key, StoreStep(store, key.Some?, ops[0]).0, ops[1..]);
    }
  }

  lemma {:induction false} TableRefinesStore(table: map<string, TableRow>, key: Option<Cipher>, store: map<string, Entry>, ops: seq<Op>)
    requires KeySound(key) && TableShows(table, key, store) && AllClean(store, key.Some?, ops)
    ensures TableReplies(table, key, ops) == StoreReplies(store, key.Some?, ops)
    decreases |ops|
  {
    hide TableShows, TableStep, StoreStep, KeySound, Clean;
    if ops != [] {
      TableStepShows(table, key, store, ops[0]);
      TableRefinesStore(TableStep(table, key, ops[0]).0, key, StoreStep(store, key.Some?, ops[0]).0, ops[1..]);
    }
  }

  lemma {:induction false} CleanIdsAreNonBlank(store: map<string, Entry>, hasKey: bool, ops: seq<Op>)
    requires AllClean(store, hasKey, ops)
    ensures NonBlankIds(ops)
    decreases |ops|
  {
    hide StoreStep, Blank, NameFree;
    if ops != [] {
      CleanIdsAreNonBlank(StoreStep(store, hasKey, ops[0]).0, hasKey, ops[1..]);
      assert forall i :: 1 <= i < |ops| ==> ops[i] == ops[1..][i - 1];
    }
  }

  /** Over every clean sequence of saves, deletes and reads the two sinks give the same
      replies, those of the plain store. */
  lemma SinksAgree(key: Option<Cipher>, ops: seq<Op>)
    requires KeySound(key) && AllClean(map[], key.Some?, ops)
    ensures FileReplies(map[], key, ops) == TableReplies(map[], key, ops) == StoreReplies(map[], key.Some?, ops)
  {
    CleanIdsAreNonBlank(map[], key.Some?, ops);
    FileRefinesStore(map[], key, map[], ops);
    TableRefinesStore(map[], key, map[], ops);
  }

  /** For a new identifier the conditions are exact: saving and reading back gives the same
      two replies from both sinks if and only if the save is clean. */
  lemma NewProfileAgreesExactlyWhenClean(
    rows: map<string, FileRow>, table: map<string, TableRow>, key: Option<Cipher>, store: map<string, Entry>, op: Op)
    requires KeySound(key) && FileShows(rows, key, store) && TableShows(table, key, store)
    requires op.Save? && op.profile.id !in store && (key.Some? || Blank(op.secret.privateKey))
    ensures var (rows', saved) := FileStep(rows, key, op);
      var (table', saved') := TableStep(table, key, op);
      (saved == saved' && FileRead(rows', key, op.profile.id) == TableRead(table', key, op.profile.id)) <==> Clean(store, op)
  {
    hide Blank, TrimSpace, NameFree, NameClash, FileRowReply, TableRowReply, SavedFileRow, MergedRow, NewTableRow, KeySound;
    hide Sound, FileShows, TableShows;
    NotShown(rows, table, key, store, op.profile);
    NewRowReplies(key, op.profile, op.secret, op.nonce);
    NewRowHasProfile(key, op.profile, op.secret, op.nonce);
    NewRowIsFound(key, op.profile, op.secret, op.nonce);
    assert op.profile.id !in table && op.profile.id !in rows;
    var file := SavedFileRow(FileRow(op.profile, "", ""), key, op.profile, op.secret, op.nonce);
    var row := MergedRow(NewTableRow(key, op.profile, op.secret, op.nonce), None);
    assert TableStep(table, key, op) == if NameClash(table, op.profile) then (table, NameTaken) else (table[op.profile.id := row], Done);
    assert FileStep(rows, key, op) == if Blank(op.profile.id) then (rows, Done) else (rows[op.profile.id := file], Done);
  }

  lemma NotShown(rows: map<string, FileRow>, table: map<string, TableRow>, key: Option<Cipher>, store: map<string, Entry>, profile: Profile)
    requires FileShows(rows, key, store) && TableShows(table, key, store)
    ensures NameClash(table, profile) <==> !NameFree(store, profile)
    ensures rows.Keys == table.Keys == store.Keys
  {
    hide TableRead, FileRead, NameClash, NameFree;
    ClashMeansNameTaken(table, key, store, profile);
  }

  lemma NewRowIsFound(key: Option<Cipher>, profile: Profile, secret: Secret, nonce: nat)
    requires KeySound(key) && (Blank(secret.privateKey) || key.Some?)
    ensures TableRowReply(MergedRow(NewTableRow(key, profile, secret, nonce), None), key).Found?
  {
    hide Blank;
  }

  /** What the two sinks read back of a first save; they differ only in the path. */
  lemma NewRowReplies(key: Option<Cipher>, profile: Profile, secret: Secret, nonce: nat)
    requires KeySound(key) && (Blank(secret.privateKey) || key.Some?)
    ensures FileRowReply(SavedFileRow(FileRow(profile, "", ""), key, profile, secret, nonce), key)
         == TableRowReply(MergedRow(NewTableRow(key, profile, secret, nonce), None), key)
       <==> TrimSpace(secret.privateKeyFile) == secret.privateKeyFile
  {
    hide Blank, TrimSpace;
    BlankOrKept(secret.privateKeyFile);
  }
}
