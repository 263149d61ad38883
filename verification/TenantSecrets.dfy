/**
  Lazy re-encryption of one tenant's Telegram bot token: the settings row, the resolver's pending
  upgrades in every process, and the compare-and-set that rewrites an old ciphertext. The cipher is
  the parameter `decrypt`; all that is assumed of encrypting is that decrypting undoes it.
 */
module TenantSecrets {
  import opened Common

  const CURRENT: int := 2
  const KEY_VERSION_WHEN_NO_CIPHERTEXT: int := 1

  datatype Secret = Secret(ciphertext: string, iv: string, tag: string, keyVersion: int)

  /** The four token columns of the row. */
  datatype Row = Row(ciphertext: Option<string>, iv: Option<string>, tag: Option<string>, keyVersion: int)

  type Decrypt = Secret -> Option<string>

  /** `mapTelegramBotTokenEncrypted`: a missing or empty column means no token. */
  function SecretOf(row: Option<Row>): Option<Secret> {
    if row.None? then None
    else
      var c, i, t := row.value.ciphertext.GetOr(""), row.value.iv.GetOr(""), row.value.tag.GetOr("");
      if c == "" || i == "" || t == "" then None else Some(Secret(c, i, t, row.value.keyVersion))
  }

  predicate NeedsUpgrade(s: Secret) { s.keyVersion != CURRENT }

  /** `s` is a fresh encryption of `token`: all of it written, at the current version, and it decrypts to the token. */
  predicate Encrypts(decrypt: Decrypt, s: Secret, token: string) {
    && s.ciphertext != "" && s.iv != "" && s.tag != "" && s.keyVersion == CURRENT
    && token != "" && decrypt(s) == Some(token)
  }

  datatype Operation = Unchanged | Clear | Set

  function Column(encrypted: Option<Secret>, get: Secret -> string): Option<string> {
    if encrypted.Some? then Some(get(encrypted.value)) else None
  }

  class SettingsRepository {
    var row: Option<Row>

    constructor ()
      ensures row == None
    {
      row := None;
    }

    /** Clearing keeps the stored key version; an insert writes what it is given whatever the operation. */
    method UpsertNotifierSettings(operation: Operation, encrypted: Option<Secret>)
      modifies this
      ensures row == Some(Upserted(old(row), operation, encrypted))
      ensures old(row).Some? && operation == Unchanged ==> row == old(row)
      ensures old(row).Some? && operation == Clear ==> row == Some(Row(None, None, None, old(row).value.keyVersion))
      ensures (old(row).None? || operation == Set) && encrypted.None? ==> row == Some(Row(None, None, None, 1))
      ensures (old(row).None? || operation == Set) && encrypted.Some? ==>
                var s := encrypted.value; row == Some(Row(Some(s.ciphertext), Some(s.iv), Some(s.tag), s.keyVersion))
    {
      var version := if encrypted.Some? then encrypted.value.keyVersion else KEY_VERSION_WHEN_NO_CIPHERTEXT;
      var excluded := Row(Column(encrypted, (s: Secret) => s.ciphertext), Column(encrypted, (s: Secret) => s.iv),
                          Column(encrypted, (s: Secret) => s.tag), version);
      if row == None {
        row := Some(excluded);
      } else {
        var was := row.value;
        row := Some(Row(if operation == Set then excluded.ciphertext else if operation == Clear then None else was.ciphertext,
                        if operation == Set then excluded.iv else if operation == Clear then None else was.iv,
                        if operation == Set then excluded.tag else if operation == Clear then None else was.tag,
                        if operation == Set then excluded.keyVersion else was.keyVersion));
      }
    }

    /** Compares ciphertext and key version only, and rewrites all four columns. */
    method UpgradeTelegramBotTokenKeyVersion(expected: Secret, encrypted: Secret) returns (upgraded: bool)
      modifies this
      ensures upgraded <==> Matches(old(row), expected)
      ensures upgraded <==>
                old(row).Some? && old(row).value.ciphertext == Some(expected.ciphertext) && old(row).value.keyVersion == expected.keyVersion
      ensures upgraded ==> row == Some(Row(Some(encrypted.ciphertext), Some(encrypted.iv), Some(encrypted.tag), encrypted.keyVersion))
      ensures row == if upgraded then Some(Stored(encrypted)) else old(row)
    {
      upgraded := row.Some? && row.value.ciphertext == Some(expected.ciphertext) && row.value.keyVersion == expected.keyVersion;
      if upgraded {
        row := Some(Row(Some(encrypted.ciphertext), Some(encrypted.iv), Some(encrypted.tag), encrypted.keyVersion));
      }
    }
  }

  function Stored(s: Secret): Row { Row(Some(s.ciphertext), Some(s.iv), Some(s.tag), s.keyVersion) }

  function Excluded(encrypted: Option<Secret>): Row {
    if encrypted.Some? then Stored(encrypted.value) else Row(None, None, None, KEY_VERSION_WHEN_NO_CIPHERTEXT)
  }

  function Upserted(row: Option<Row>, operation: Operation, encrypted: Option<Secret>): Row {
    if row.None? || operation == Set then Excluded(encrypted)
    else if operation == Clear then Row(None, None, None, row.value.keyVersion)
    else row.value
  }

  predicate Matches(row: Option<Row>, expected: Secret) {
    row.Some? && row.value.ciphertext == Some(expected.ciphertext) && row.value.keyVersion == expected.keyVersion
  }

  /** A stored secret is read back as it is, unless a column of it is empty, which means no token. */
  lemma StoredReadsBack(s: Secret)
    ensures SecretOf(Some(Stored(s))) == if s.ciphertext != "" && s.iv != "" && s.tag != "" then Some(s) else None
  {
  }

  /** A row gives a secret exactly when all three of its token columns are filled. */
  lemma SecretNeedsAllColumns(row: Row)
    ensures SecretOf(Some(row)).Some? <==>
            row.ciphertext.Some? && row.ciphertext.value != "" && row.iv.Some? && row.iv.value != "" && row.tag.Some? && row.tag.value != ""
    ensures SecretOf(Some(row)).Some? ==> Stored(SecretOf(Some(row)).value) == row
  {
  }

  // ---------------------------------------------------------------- the resolver

  /** An upgrade under way in one process: what it read, and what it will write. */
  datatype Upgrade = Upgrade(expected: Secret, encrypted: Secret)

  datatype Source = Tenant | Global | Nobody

  class TelegramBotTokenResolver {
    const decrypt: Decrypt
    const globalToken: Option<string>
    var pending: Option<Upgrade>

    constructor (decrypt: Decrypt, globalToken: Option<string>)
      ensures this.decrypt == decrypt && this.globalToken == globalToken && pending == None
    {
      this.decrypt, this.globalToken, pending := decrypt, globalToken, None;
    }

    /**
      `encrypted` is what encrypting the opened token now would give. A stored token that does not
      open is never answered with the global one.
     */
    method ResolveDetailedForTenant(row: Option<Row>, encrypted: Secret) returns (token: Option<string>, source: Source)
      modifies this
      ensures var secret := SecretOf(row);
              && (secret.None? ==> token == globalToken && source == if globalToken.Some? then Global else Nobody)
              && (secret.Some? ==> token == decrypt(secret.value) && source == if token.Some? then Tenant else Nobody)
              && pending == Scheduled(old(pending), row, encrypted, decrypt)
              && pending == if old(pending).None? && secret.Some? && token.Some? && secret.value.keyVersion != 2
                            then Some(Upgrade(secret.value, encrypted)) else old(pending)
    {
      var secret := SecretOf(row);
      if secret.None? {
        return globalToken, if globalToken.Some? then Global else Nobody;
      }
      token := decrypt(secret.value);
      if token.None? {
        return None, Nobody;
      }
      if NeedsUpgrade(secret.value) {
        ScheduleKeyVersionUpgrade(secret.value, encrypted);
      }
      source := Tenant;
    }

    method ScheduleKeyVersionUpgrade(previous: Secret, encrypted: Secret)
      modifies this
      ensures pending == if old(pending).Some? then old(pending) else Some(Upgrade(previous, encrypted))
    {
      if pending.None? {
        pending := Some(Upgrade(previous, encrypted));
      }
    }
  }

  function Scheduled(pending: Option<Upgrade>, row: Option<Row>, encrypted: Secret, decrypt: Decrypt): Option<Upgrade> {
    var secret := SecretOf(row);
    if pending.Some? || secret.None? || decrypt(secret.value).None? || !NeedsUpgrade(secret.value) then pending
    else Some(Upgrade(secret.value, encrypted))
  }

  // ---------------------------------------------------------------- interleavings

  /**
    The row, each process's pending upgrade, and every row any process has read; a delivery may
    resolve a token from a row it read long before.
   */
  datatype Sys = Sys(row: Option<Row>, pending: map<int, Upgrade>, read: seq<Option<Row>>, upgrades: nat)

  datatype Step =
    | Read
    | Resolve(pid: int, at: nat, encrypted: Secret)  // from the row read as number `at`
    | Fire(pid: int)                                 // the pending UPDATE runs
    | Fail(pid: int)                                 // or does not
    | SetToken(token: string, encrypted: Secret)
    | ClearToken
    | KeepToken

  predicate Sensible(s: Sys, step: Step, decrypt: Decrypt) {
    match step
    case Resolve(_, at, encrypted) =>
      at < |s.read| &&
      var secret := SecretOf(s.read[at]);
      secret.Some? && decrypt(secret.value).Some? ==> Encrypts(decrypt, encrypted, decrypt(secret.value).value)
    case SetToken(token, encrypted) => Encrypts(decrypt, encrypted, token)
    case _ => true
  }

  /** A step that is not sensible changes nothing. */
  function Exec(s: Sys, step: Step, decrypt: Decrypt): Sys {
    if !Sensible(s, step, decrypt) then s
    else
      match step
      case Read => s.(read := s.read + [s.row])
      case Resolve(pid, at, encrypted) =>
        var before := if pid in s.pending then Some(s.pending[pid]) else None;
        var after := Scheduled(before, s.read[at], encrypted, decrypt);
        if after.Some? then s.(pending := s.pending[pid := after.value]) else s
      case Fire(pid) =>
        if pid !in s.pending then s
        else
          var u := s.pending[pid];
          var hit := Matches(s.row, u.expected);
          Sys(if hit then Some(Stored(u.encrypted)) else s.row, s.pending - {pid}, s.read, s.upgrades + if hit then 1 else 0)
      case Fail(pid) => s.(pending := s.pending - {pid})
      case SetToken(_, encrypted) => s.(row := Some(Upserted(s.row, Set, Some(encrypted))))
      case ClearToken => s.(row := Some(Upserted(s.row, Clear, None)))
      case KeepToken => s.(row := Some(Upserted(s.row, Unchanged, None)))
  }

  function Run(initial: Option<Row>, steps: seq<Step>, decrypt: Decrypt): Sys {
    if steps == [] then Sys(initial, map[], [], 0)
    else Exec(Run(initial, steps[..|steps| - 1], decrypt), steps[|steps| - 1], decrypt)
  }

  /** The token the tenant last chose: what it set, nothing after a clear, at first what the row held. */
  function Chosen(initial: Option<Row>, steps: seq<Step>, decrypt: Decrypt): Option<string> {
    if steps == [] then Opened(initial, decrypt)
    else
      var before := Chosen(initial, steps[..|steps| - 1], decrypt);
      match steps[|steps| - 1]
      case SetToken(token, encrypted) => if Encrypts(decrypt, encrypted, token) then Some(token) else before
      case ClearToken => None
      case _ => before
  }

  /** What a read of the row opens to. */
  function Opened(row: Option<Row>, decrypt: Decrypt): Option<string> {
    match SecretOf(row)
    case Some(s) => decrypt(s)
    case None => None
  }

  // ---------------------------------------------------------------- invariant

  /** A ciphertext at an old version is still the one the run began with. */
  ghost predicate OldIsInitial(row: Option<Row>, initial: Option<Row>) {
    row.Some? && row.value.ciphertext.Some? && row.value.keyVersion != CURRENT ==> row == initial
  }

  ghost predicate UpgradeFits(u: Upgrade, initial: Option<Row>, decrypt: Decrypt) {
    && SecretOf(initial) == Some(u.expected) && NeedsUpgrade(u.expected)
    && decrypt(u.expected).Some? && Encrypts(decrypt, u.encrypted, decrypt(u.expected).value)
  }

  ghost predicate Sound(s: Sys, initial: Option<Row>, chosen: Option<string>, decrypt: Decrypt) {
    && Opened(s.row, decrypt) == chosen
    && OldIsInitial(s.row, initial)
    && (forall i | 0 <= i < |s.read| :: OldIsInitial(s.read[i], initial))
    && (forall p | p in s.pending :: UpgradeFits(s.pending[p], initial, decrypt))
    && (s.upgrades > 0 ==> NeverOldAgain(s.row))
    && s.upgrades <= 1
  }

  /** No ciphertext at an old version is left for an upgrade to match, nor can a clear bring one back. */
  predicate NeverOldAgain(row: Option<Row>) { row.Some? && row.value.keyVersion == CURRENT }

  lemma StepKeeps(s: Sys, step: Step, initial: Option<Row>, chosen: Option<string>, decrypt: Decrypt)
    requires Sound(s, initial, chosen, decrypt)
    ensures var next := match step
              case SetToken(token, encrypted) => if Encrypts(decrypt, encrypted, token) then Some(token) else chosen
              case ClearToken => None
              case _ => chosen;
            Sound(Exec(s, step, decrypt), initial, next, decrypt)
  {
    match step
    case Fire(pid) =>
      if pid in s.pending {
        assert UpgradeFits(s.pending[pid], initial, decrypt);
      }
    case Resolve(pid, at, encrypted) =>
      if at < |s.read| {
        assert OldIsInitial(s.read[at], initial);
      }
    case _ =>
  }

  lemma {:induction false} RunKeeps(initial: Option<Row>, steps: seq<Step>, decrypt: Decrypt)
    ensures Sound(Run(initial, steps, decrypt), initial, Chosen(initial, steps, decrypt), decrypt)
  {
    if steps != [] {
      var n := |steps| - 1;
      RunKeeps(initial, steps[..n], decrypt);
      StepKeeps(Run(initial, steps[..n], decrypt), steps[n], initial, Chosen(initial, steps[..n], decrypt), decrypt);
    }
  }

  /**
    In every interleaving of reads, stale resolutions, upgrades and settings changes, the row opens
    to exactly the token last chosen: re-encryption is invisible and never resurrects a token.
   */
  lemma RowOpensToTheChosenToken(initial: Option<Row>, steps: seq<Step>, decrypt: Decrypt)
    ensures Opened(Run(initial, steps, decrypt).row, decrypt) == Chosen(initial, steps, decrypt)
  {
    RunKeeps(initial, steps, decrypt);
  }

  /** Over a whole run at most one upgrade rewrites the row, however many processes try. */
  lemma AtMostOneUpgrade(initial: Option<Row>, steps: seq<Step>, decrypt: Decrypt)
    ensures Run(initial, steps, decrypt).upgrades <= 1
  {
    RunKeeps(initial, steps, decrypt);
  }

  /**
    Left alone, one read brings a ciphertext of any other version to the current one, and leaves one
    of the current version as it is.
   */
  lemma {:induction false} UndisturbedReadUpgrades(row: Row, pid: int, encrypted: Secret, decrypt: Decrypt)
    requires var secret := SecretOf(Some(row));
             secret.Some? && decrypt(secret.value).Some? && Encrypts(decrypt, encrypted, decrypt(secret.value).value)
    ensures var t := Run(Some(row), [Read] + [Resolve(pid, 0, encrypted)] + [Fire(pid)], decrypt);
            && Opened(t.row, decrypt) == Opened(Some(row), decrypt) && t.row.Some? && t.row.value.keyVersion == 2
            && (row.keyVersion != 2 ==> t.row == Some(Stored(encrypted)) && t.upgrades == 1)
            && (row.keyVersion == 2 ==> t.row == Some(row) && t.upgrades == 0)
  {
    var s0 := Run(Some(row), [], decrypt);
    AppendStep(Some(row), [], Read, decrypt);
    assert [] + [Read] == [Read];
    AppendStep(Some(row), [Read], Resolve(pid, 0, encrypted), decrypt);
    AppendStep(Some(row), [Read] + [Resolve(pid, 0, encrypted)], Fire(pid), decrypt);
    StoredReadsBack(encrypted);
  }

  /** An upgrade that failed is not the last word: the next read of the same row schedules another, which goes through. */
  lemma {:induction false} FailedUpgradeIsRetried(row: Row, pid: int, first: Secret, second: Secret, decrypt: Decrypt)
    requires var secret := SecretOf(Some(row));
             secret.Some? && secret.value.keyVersion != 2 && decrypt(secret.value).Some? &&
             Encrypts(decrypt, first, decrypt(secret.value).value) && Encrypts(decrypt, second, decrypt(secret.value).value)
    ensures var failed := [Read] + [Resolve(pid, 0, first)] + [Fail(pid)];
            && Run(Some(row), failed, decrypt).row == Some(row)
            && Run(Some(row), failed + [Resolve(pid, 0, second)] + [Fire(pid)], decrypt).row == Some(Stored(second))
  {
    AppendStep(Some(row), [], Read, decrypt);
    assert [] + [Read] == [Read];
    AppendStep(Some(row), [Read], Resolve(pid, 0, first), decrypt);
    var resolved := [Read] + [Resolve(pid, 0, first)];
    AppendStep(Some(row), resolved, Fail(pid), decrypt);
    var failed := resolved + [Fail(pid)];
    AppendStep(Some(row), failed, Resolve(pid, 0, second), decrypt);
    AppendStep(Some(row), failed + [Resolve(pid, 0, second)], Fire(pid), decrypt);
  }

  lemma AppendStep(initial: Option<Row>, steps: seq<Step>, step: Step, decrypt: Decrypt)
    ensures Run(initial, steps + [step], decrypt) == Exec(Run(initial, steps, decrypt), step, decrypt)
  {
    assert (steps + [step])[..|steps|] == steps;
  }
}
