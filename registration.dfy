/** The registration gate (components/registration-form.tsx, `handleSubmit`):
    the email is normalised, the raffle must exist and be upcoming, the email
    must not be registered yet, and the participant row is inserted under a
    fresh entry code, with one retry when the code collides. The store's
    replies, the clock and the samples of `Math.random()` are inputs;
    `Submit` is the decision the form takes and `RegistrationForm` the form
    whose state `handleSubmit` updates step by step. */
module Registration {
  import opened RaffleTypes
  import opened Randomness
  import opened EntryCodes

  /** The characters `String.prototype.trim` removes: white space and line terminators. */
  predicate IsSpace(c: char) {
    c == ' ' || c == '\t' || c == '\n' || c == '\r' || c == '\U{000B}' || c == '\U{000C}'
    || c == '\U{00A0}' || c == '\U{1680}' || ('\U{2000}' <= c <= '\U{200A}')
    || c == '\U{2028}' || c == '\U{2029}' || c == '\U{202F}' || c == '\U{205F}'
    || c == '\U{3000}' || c == '\U{FEFF}'
  }

  predicate IsUpper(c: char) {
    'A' <= c <= 'Z'
  }

  function LowerChar(c: char): (r: char)
    ensures !IsUpper(r)
    ensures IsSpace(r) <==> IsSpace(c)
  {
    if IsUpper(c) then (c as int - 'A' as int + 'a' as int) as char else c
  }

  /** `toLowerCase`, on the letters A to Z. */
  function Lower(s: string): string {
    if s == [] then [] else [LowerChar(s[0])] + Lower(s[1..])
  }

  /** Lower-casing maps each character on its own and keeps the length. */
  lemma {:induction false} LowerSpec(s: string)
    ensures |Lower(s)| == |s|
    ensures forall i :: 0 <= i < |s| ==> Lower(s)[i] == LowerChar(s[i])
  {
    if s != [] {
      LowerSpec(s[1..]);
      assert forall i :: 1 <= i < |s| ==> Lower(s)[i] == Lower(s[1..])[i - 1];
    }
  }

  /** `trimStart`. */
  function TrimStart(s: string): string {
    if s != [] && IsSpace(s[0]) then TrimStart(s[1..]) else s
  }

  /** `trimStart` drops a prefix of white space and stops at the first other character. */
  lemma {:induction false} TrimStartSpec(s: string)
    ensures var r := TrimStart(s);
      && |r| <= |s| && r == s[|s| - |r|..]
      && (forall i :: 0 <= i < |s| - |r| ==> IsSpace(s[i]))
      && (r != [] ==> !IsSpace(r[0]))
  {
    if s != [] && IsSpace(s[0]) {
      var r := TrimStart(s[1..]);
      TrimStartSpec(s[1..]);
      assert s[1..][|s| - 1 - |r|..] == s[|s| - |r|..];
      assert forall i :: 1 <= i < |s| ==> s[i] == s[1..][i - 1];
    }
  }

  /** `trimEnd`. */
  function TrimEnd(s: string): string {
    if s != [] && IsSpace(s[|s| - 1]) then TrimEnd(s[..|s| - 1]) else s
  }

  /** `trimEnd` drops a suffix of white space and stops at the last other character. */
  lemma {:induction false} TrimEndSpec(s: string)
    ensures var r := TrimEnd(s);
      && |r| <= |s| && r == s[..|r|]
      && (forall i :: |r| <= i < |s| ==> IsSpace(s[i]))
      && (r != [] ==> !IsSpace(r[|r| - 1]))
  {
    if s != [] && IsSpace(s[|s| - 1]) {
      var r := TrimEnd(s[..|s| - 1]);
      TrimEndSpec(s[..|s| - 1]);
      assert s[..|s| - 1][..|r|] == s[..|r|];
      assert forall i :: 0 <= i < |s| - 1 ==> s[i] == s[..|s| - 1][i];
    }
  }

  /** `trim`: white space dropped at both ends. */
  function Trim(s: string): string {
    TrimEnd(TrimStart(s))
  }

  /** No character of `s` is a capital letter. */
  predicate NoUpper(s: string) {
    forall i :: 0 <= i < |s| ==> !IsUpper(s[i])
  }

  /** The email as the form uses it: lower-cased, then trimmed. */
  function NormaliseEmail(raw: string): string {
    Trim(Lower(raw))
  }

  /** A normalised email has no capital letter, no white space at either
      end, and is no longer than what was typed. */
  lemma NormalisedShape(raw: string)
    ensures var e := NormaliseEmail(raw);
      && NoUpper(e)
      && (e != [] ==> !IsSpace(e[0]) && !IsSpace(e[|e| - 1]))
      && |e| <= |raw|
  {
    var lowered := Lower(raw);
    var start := TrimStart(lowered);
    var r := TrimEnd(start);
    LowerSpec(raw);
    TrimStartSpec(lowered);
    TrimEndSpec(start);
    assert NoUpper(lowered);
    assert NoUpper(start) by {
      forall i | 0 <= i < |start| ensures !IsUpper(start[i]) {
        assert start[i] == lowered[|lowered| - |start| + i];
      }
    }
    assert NoUpper(r) by {
      forall i | 0 <= i < |r| ensures !IsUpper(r[i]) {
        assert r[i] == start[i];
      }
    }
    if r != [] {
      assert r[0] == start[0];
    }
  }

  /** Lower-casing a string with no capital letter changes nothing. */
  lemma {:induction false} LowerNoUpper(s: string)
    requires NoUpper(s)
    ensures Lower(s) == s
  {
    if s != [] {
      assert NoUpper(s[1..]) by {
        forall i | 0 <= i < |s| - 1 ensures !IsUpper(s[1..][i]) {
          assert s[1..][i] == s[i + 1];
        }
      }
      LowerNoUpper(s[1..]);
    }
  }

  lemma {:induction false} TrimTrimmed(s: string)
    requires s != [] ==> !IsSpace(s[0]) && !IsSpace(s[|s| - 1])
    ensures Trim(s) == s
  {
  }

  /** Normalising a normalised email changes nothing. */
  lemma NormaliseIdempotent(raw: string)
    ensures NormaliseEmail(NormaliseEmail(raw)) == NormaliseEmail(raw)
  {
    var e := NormaliseEmail(raw);
    NormalisedShape(raw);
    LowerNoUpper(e);
    TrimTrimmed(e);
  }

  /** `sub` occurs in `s` at position `i`. */
  predicate OccursAt(s: string, sub: string, i: int) {
    0 <= i && i + |sub| <= |s| && s[i..i + |sub|] == sub
  }

  /** `s.includes(sub)`. */
  function Contains(s: string, sub: string): bool {
    if |sub| > |s| then false
    else if s[..|sub|] == sub then true
    else Contains(s[1..], sub)
  }

  /** `includes` finds `sub` exactly when it occurs at some position. */
  lemma {:induction false} ContainsOccurs(s: string, sub: string)
    ensures Contains(s, sub) <==> exists i :: OccursAt(s, sub, i)
  {
    if |sub| > |s| {
    } else if s[..|sub|] == sub {
      assert OccursAt(s, sub, 0);
    } else {
      ContainsOccurs(s[1..], sub);
      if Contains(s[1..], sub) {
        var i :| OccursAt(s[1..], sub, i);
        assert s[i + 1..i + 1 + |sub|] == s[1..][i..i + |sub|];
        assert OccursAt(s, sub, i + 1);
      }
      if exists i :: OccursAt(s, sub, i) {
        var i :| OccursAt(s, sub, i);
        assert i != 0;
        assert s[1..][i - 1..i - 1 + |sub|] == s[i..i + |sub|];
        assert OccursAt(s[1..], sub, i - 1);
      }
    }
  }

  /** The reply to a participant insert: the stored row (with its entry
      code), an error with its code and message, or neither. */
  datatype InsertReply =
    | Row(entryCode: string)
    | DbError(code: string, message: string)
    | NoRow

  /** What the form sends to the store as a new participant row. */
  datatype ParticipantInsert = ParticipantInsert(raffleId: string, name: string, email: string, phone: string, entryCode: string)

  /** Everything `handleSubmit` reads from outside: the form fields, the
      raffle lookup (`None` when it failed or found nothing), whether the
      duplicate-email lookup found a row, and for each insert attempt the
      clock, the random sample and the store's reply. */
  datatype Env = Env(
    name: string, rawEmail: string, phone: string,
    raffle: Option<RaffleStatus>,
    alreadyRegistered: bool,
    clock: nat, sample: real, reply: InsertReply,
    retryClock: nat, retrySample: real, retryReply: InsertReply)

  predicate ValidSamples(env: Env) {
    IsUnitSample(env.sample) && IsUnitSample(env.retrySample)
  }

  /** What a submission leaves behind: the error shown, whether success was
      set, the entry code set (if any), the email the duplicate check looked
      up (if it ran) and the inserts sent, in order. */
  datatype Submission = Submission(
    error: Option<string>,
    setsSuccess: bool,
    entryCode: Option<string>,
    lookedUpEmail: Option<string>,
    inserts: seq<ParticipantInsert>)

  const MsgRaffleInvalid: string := "This raffle no longer exists or is invalid. Please refresh the page."
  const MsgDrawLive: string := "Registration is closed. This raffle draw is currently live."
  const MsgRaffleEnded: string := "Registration is closed. This raffle has ended."
  const MsgAlreadyRegistered: string := "This email is already registered for this raffle. Please use a different email address."
  const MsgRaffleGone: string := "This raffle no longer exists. Please refresh the page and try again."
  const MsgRetryRaffleGone: string := "This raffle no longer exists. Please refresh the page."
  const MsgTryAgain: string := "Registration failed. Please try again."
  const MsgEmailTaken: string := "This email is already registered for this raffle."
  const MsgUnexpected: string := "An unexpected error occurred. Please try again."

  const CodeForeignKey: string := "23503"
  const CodeUnique: string := "23505"

  /** The first attempt's code: a random number below 1000, three digits. */
  function FirstCode(env: Env): string
    requires ValidSamples(env)
  {
    EntryCode(env.clock, PickIndex(env.sample, 1000), 3)
  }

  /** The retry's code: a random number below 10000, four digits. */
  function RetryCode(env: Env): string
    requires ValidSamples(env)
  {
    EntryCode(env.retryClock, PickIndex(env.retrySample, 10000), 4)
  }

  /** The outcome of an insert reply that is a row or nothing: success is set
      either way, but with no row the read of its entry code throws and the
      catch shows the generic error. */
  function Stored(reply: InsertReply, lookedUp: Option<string>, inserts: seq<ParticipantInsert>): Submission
    requires !reply.DbError?
  {
    if reply.Row? then Submission(None, true, Some(reply.entryCode), lookedUp, inserts)
    else Submission(Some(MsgUnexpected), true, None, lookedUp, inserts)
  }

  /** The decision `handleSubmit` takes. */
  function Submit(raffleId: string, env: Env): Submission
    requires ValidSamples(env)
  {
    var email := NormaliseEmail(env.rawEmail);
    if env.raffle.None? then
      Submission(Some(MsgRaffleInvalid), false, None, None, [])
    else if env.raffle.value != Upcoming then
      Submission(Some(if env.raffle.value == Live then MsgDrawLive else MsgRaffleEnded), false, None, None, [])
    else if env.alreadyRegistered then
      Submission(Some(MsgAlreadyRegistered), false, None, Some(email), [])
    else
      Insert(raffleId, env, email)
  }

  /** The insert stage, once the checks passed, for the normalised `email`:
      the first insert, and the retry when its code collided. */
  function Insert(raffleId: string, env: Env, email: string): Submission
    requires ValidSamples(env)
  {
    var first := ParticipantInsert(raffleId, env.name, email, env.phone, FirstCode(env));
    if Collided(env.reply) then
      var second := ParticipantInsert(raffleId, env.name, email, env.phone, RetryCode(env));
      RetryOutcome(env.retryReply, email, [first, second])
    else
      FirstOutcome(env.reply, email, [first])
  }

  /** The reply to an insert is a unique violation on the entry code. */
  predicate Collided(reply: InsertReply) {
    reply.DbError? && reply.code == CodeUnique && Contains(reply.message, "entry_code")
  }

  /** The outcome of a first insert whose code did not collide. */
  function FirstOutcome(reply: InsertReply, email: string, inserts: seq<ParticipantInsert>): (s: Submission)
    requires !Collided(reply)
    ensures s.lookedUpEmail == Some(email) && s.inserts == inserts
  {
    match reply
    case DbError(code, message) =>
      if code == CodeForeignKey then
        Submission(Some(MsgRaffleGone), false, None, Some(email), inserts)
      else if code == CodeUnique then
        Submission(Some(MsgEmailTaken), false, None, Some(email), inserts)
      else
        Submission(Some(if message != "" then message else MsgTryAgain), false, None, Some(email), inserts)
    case _ => Stored(reply, Some(email), inserts)
  }

  /** The outcome of the single retry after the first code collided. */
  function RetryOutcome(retryReply: InsertReply, email: string, inserts: seq<ParticipantInsert>): (s: Submission)
    ensures s.lookedUpEmail == Some(email) && s.inserts == inserts
  {
    match retryReply
    case DbError(retryCode, _) =>
      Submission(Some(if retryCode == CodeForeignKey then MsgRetryRaffleGone else MsgTryAgain),
                 false, None, Some(email), inserts)
    case _ => Stored(retryReply, Some(email), inserts)
  }

  /** Whether the submission gets past the raffle and duplicate checks. */
  predicate PassesChecks(env: Env) {
    env.raffle == Some(Upcoming) && !env.alreadyRegistered
  }

  /** A raffle that is missing or not upcoming is refused with its message,
      before any lookup or insert; an email already registered is refused
      before any insert. */
  lemma RejectedBeforeInsert(raffleId: string, env: Env)
    requires ValidSamples(env)
    ensures var s := Submit(raffleId, env);
      && (env.raffle.None? ==> s.error == Some(MsgRaffleInvalid))
      && (env.raffle == Some(Live) ==> s.error == Some(MsgDrawLive))
      && (env.raffle == Some(Completed) ==> s.error == Some(MsgRaffleEnded))
      && (env.raffle == Some(Upcoming) && env.alreadyRegistered ==> s.error == Some(MsgAlreadyRegistered))
      && (s.inserts == [] <==> !PassesChecks(env))
      && (!PassesChecks(env) ==> !s.setsSuccess && s.entryCode == None)
      && (env.raffle != Some(Upcoming) ==> s.lookedUpEmail == None)
  {
    if PassesChecks(env) {
      InsertStage(raffleId, env, NormaliseEmail(env.rawEmail));
    }
  }

  /** Every lookup and every insert uses the normalised email and the raffle's
      id; there are at most two inserts, and the second happens exactly when
      the first collided on its entry code. */
  lemma InsertsUseNormalisedEmail(raffleId: string, env: Env)
    requires ValidSamples(env)
    ensures var s := Submit(raffleId, env);
      && (s.lookedUpEmail.Some? ==> s.lookedUpEmail.value == NormaliseEmail(env.rawEmail))
      && (forall i :: 0 <= i < |s.inserts| ==>
            s.inserts[i].email == NormaliseEmail(env.rawEmail) && s.inserts[i].raffleId == raffleId)
      && |s.inserts| <= 2
      && (|s.inserts| == 2 <==> PassesChecks(env) && Collided(env.reply))
  {
    var email := NormaliseEmail(env.rawEmail);
    var s := Submit(raffleId, env);
    if PassesChecks(env) {
      assert s == Insert(raffleId, env, email);
      InsertStage(raffleId, env, email);
    } else {
      assert s.inserts == [] && s.lookedUpEmail in {None, Some(email)};
    }
  }

  /** The inserts of the insert stage carry `email` and the raffle's id;
      there are two exactly when the first code collided. */
  lemma InsertStage(raffleId: string, env: Env, email: string)
    requires ValidSamples(env)
    ensures var s := Insert(raffleId, env, email);
      && s.lookedUpEmail == Some(email)
      && 1 <= |s.inserts| <= 2
      && (forall i :: 0 <= i < |s.inserts| ==> s.inserts[i].email == email && s.inserts[i].raffleId == raffleId)
      && s.inserts[0].entryCode == FirstCode(env)
      && (|s.inserts| == 2 <==> Collided(env.reply))
      && (|s.inserts| == 2 ==> s.inserts[1].entryCode == RetryCode(env))
  {
  }

  /** A code whose random part is below 10^width reads back as the clock's
      last six digits and that number, and has `width` digits after the dash. */
  lemma CodeFacts(clock: nat, k: nat, width: nat)
    requires 1 <= width && k < Pow10(width)
    ensures ParseEntryCode(EntryCode(clock, k, width)) == Some((clock % 1000000, k))
    ensures |EntryCode(clock, k, width)| == 8 + |Suffix(Decimal(clock), 6)| + width
  {
    EntryCodeRoundTrip(clock, k, width);
    EntryCodeShape(clock, k, width);
  }

  /** The codes sent: the first has a three-digit random part below 1000,
      the retry a four-digit one below 10000, and each reads back as the
      clock's last six digits and the random number drawn. */
  lemma InsertCodes(raffleId: string, env: Env)
    requires ValidSamples(env) && PassesChecks(env)
    ensures var s := Submit(raffleId, env);
      && 1 <= |s.inserts| <= 2
      && (var k := PickIndex(env.sample, 1000);
            && k < 1000 && s.inserts[0].entryCode == EntryCode(env.clock, k, 3)
            && ParseEntryCode(s.inserts[0].entryCode) == Some((env.clock % 1000000, k))
            && |s.inserts[0].entryCode| == 8 + |Suffix(Decimal(env.clock), 6)| + 3)
      && (|s.inserts| == 2 ==>
            var k := PickIndex(env.retrySample, 10000);
            && k < 10000 && s.inserts[1].entryCode == EntryCode(env.retryClock, k, 4)
            && ParseEntryCode(s.inserts[1].entryCode) == Some((env.retryClock % 1000000, k))
            && |s.inserts[1].entryCode| == 8 + |Suffix(Decimal(env.retryClock), 6)| + 4)
  {
    var email := NormaliseEmail(env.rawEmail);
    assert Submit(raffleId, env) == Insert(raffleId, env, email);
    InsertStage(raffleId, env, email);
    Pow10Values();
    CodeFacts(env.clock, PickIndex(env.sample, 1000), 3);
    CodeFacts(env.retryClock, PickIndex(env.retrySample, 10000), 4);
  }

  /** The error mapping of the first insert: a foreign-key failure means the
      raffle is gone, a unique violation on anything but the entry code means
      the email is taken, and any other error shows its own message or the
      generic one. */
  lemma FirstInsertErrors(raffleId: string, env: Env)
    requires ValidSamples(env) && PassesChecks(env) && env.reply.DbError?
    ensures var s := Submit(raffleId, env);
      && (!Collided(env.reply) || env.retryReply.DbError? ==> !s.setsSuccess && s.entryCode == None && s.error.Some?)
      && (env.reply.code == CodeForeignKey ==> s.error == Some(MsgRaffleGone))
      && (env.reply.code == CodeUnique && !Collided(env.reply) ==> s.error == Some(MsgEmailTaken))
      && (Collided(env.reply) && env.retryReply.DbError? ==>
            s.error == Some(if env.retryReply.code == CodeForeignKey then MsgRetryRaffleGone else MsgTryAgain))
      && (env.reply.code != CodeForeignKey && env.reply.code != CodeUnique ==>
            s.error == Some(if env.reply.message != "" then env.reply.message else MsgTryAgain))
  {
    var email := NormaliseEmail(env.rawEmail);
    var s := Submit(raffleId, env);
    assert s == Insert(raffleId, env, email);
    var first := ParticipantInsert(raffleId, env.name, email, env.phone, FirstCode(env));
    if Collided(env.reply) {
      var second := ParticipantInsert(raffleId, env.name, email, env.phone, RetryCode(env));
      assert s == RetryOutcome(env.retryReply, email, [first, second]);
    } else {
      assert s == FirstOutcome(env.reply, email, [first]);
    }
  }

  /** Success: a stored row, from the first insert or from the retry, sets
      success with that row's entry code and no error; the code shown is
      always the stored row's. */
  lemma SuccessShowsStoredCode(raffleId: string, env: Env)
    requires ValidSamples(env)
    ensures var s := Submit(raffleId, env);
      && (s.entryCode.Some? <==>
            PassesChecks(env) && (env.reply.Row? || (Collided(env.reply) && env.retryReply.Row?)))
      && (s.entryCode.Some? ==> s.setsSuccess && s.error == None)
      && (s.entryCode.Some? && env.reply.Row? ==> s.entryCode.value == env.reply.entryCode)
      && (s.entryCode.Some? && !env.reply.Row? ==> s.entryCode.value == env.retryReply.entryCode)
      && (s.setsSuccess && s.entryCode == None ==> s.error == Some(MsgUnexpected))
  {
    if PassesChecks(env) {
      var email := NormaliseEmail(env.rawEmail);
      assert Submit(raffleId, env) == Insert(raffleId, env, email);
      InsertSuccess(raffleId, env, email);
    }
  }

  lemma InsertSuccess(raffleId: string, env: Env, email: string)
    requires ValidSamples(env)
    ensures var s := Insert(raffleId, env, email);
      && (s.entryCode.Some? <==> env.reply.Row? || (Collided(env.reply) && env.retryReply.Row?))
      && (s.entryCode.Some? ==> s.setsSuccess && s.error == None)
      && (s.entryCode.Some? && env.reply.Row? ==> s.entryCode.value == env.reply.entryCode)
      && (s.entryCode.Some? && !env.reply.Row? ==> s.entryCode.value == env.retryReply.entryCode)
      && (s.setsSuccess && s.entryCode == None ==> s.error == Some(MsgUnexpected))
  {
  }

  class RegistrationForm {
    const raffleId: string
    var isLoading: bool
    var error: Option<string>
    var success: bool
    var entryCode: Option<string>

    constructor (raffleId: string)
      ensures this.raffleId == raffleId
      ensures !isLoading && error == None && !success && entryCode == None
    {
      this.raffleId := raffleId;
      isLoading := false;
      error := None;
      success := false;
      entryCode := None;
    }

    /** `handleSubmit`: the state it leaves is the one `Submit` decides. The
        error is replaced, success and the entry code are only ever set (never
        cleared), and loading is off again on every way out. */
    method HandleSubmit(env: Env) returns (lookedUpEmail: Option<string>, inserts: seq<ParticipantInsert>)
      requires ValidSamples(env)
      modifies this`isLoading, this`error, this`success, this`entryCode
      ensures var s := Submit(raffleId, env);
        && error == s.error
        && success == (old(success) || s.setsSuccess)
        && entryCode == (if s.entryCode.Some? then s.entryCode else old(entryCode))
        && lookedUpEmail == s.lookedUpEmail
        && inserts == s.inserts
      ensures !isLoading
    {
      isLoading := true;
      error := None;
      lookedUpEmail, inserts := None, [];
      var email := NormaliseEmail(env.rawEmail);

      if env.raffle.None? {
        error := Some(MsgRaffleInvalid);
        isLoading := false;
        return;
      }
      if env.raffle.value != Upcoming {
        error := Some(if env.raffle.value == Live then MsgDrawLive else MsgRaffleEnded);
        isLoading := false;
        return;
      }
      lookedUpEmail := Some(email);
      if env.alreadyRegistered {
        error := Some(MsgAlreadyRegistered);
        isLoading := false;
        return;
      }

      assert Submit(raffleId, env) == Insert(raffleId, env, email);
      inserts := TryInsert(env, email);
      isLoading := false;
    }

    /** The `try` block of `handleSubmit` with its `catch`: the first insert
        under a fresh code and the mapping of its error. (Its `finally` is the
        caller's last step.) */
    method TryInsert(env: Env, email: string) returns (inserts: seq<ParticipantInsert>)
      requires ValidSamples(env) && error == None
      modifies this`error, this`success, this`entryCode
      ensures var s := Insert(raffleId, env, email);
        && error == s.error
        && success == (old(success) || s.setsSuccess)
        && entryCode == (if s.entryCode.Some? then s.entryCode else old(entryCode))
        && inserts == s.inserts
    {
      var random := PickIndex(env.sample, 1000);
      var generatedCode := EntryCode(env.clock, random, 3);
      var first := ParticipantInsert(raffleId, env.name, email, env.phone, generatedCode);
      var reply := env.reply;
      if !reply.DbError? {
        inserts := [first];
        RecordStored(reply);
        return;
      }
      if reply.code == CodeForeignKey {
        error := Some(MsgRaffleGone);
        inserts := [first];
      } else if reply.code == CodeUnique {
        if Contains(reply.message, "entry_code") {
          inserts := RetryInsert(env, email, first);
        } else {
          error := Some(MsgEmailTaken);
          inserts := [first];
        }
      } else {
        error := Some(if reply.message != "" then reply.message else MsgTryAgain);
        inserts := [first];
      }
    }

    /** The one retry under a new four-digit code after the first code collided. */
    method RetryInsert(env: Env, email: string, first: ParticipantInsert) returns (inserts: seq<ParticipantInsert>)
      requires ValidSamples(env) && error == None
      modifies this`error, this`success, this`entryCode
      ensures inserts == [first, ParticipantInsert(raffleId, env.name, email, env.phone, RetryCode(env))]
      ensures var s := RetryOutcome(env.retryReply, email, inserts);
        && error == s.error
        && success == (old(success) || s.setsSuccess)
        && entryCode == (if s.entryCode.Some? then s.entryCode else old(entryCode))
        && inserts == s.inserts
    {
      var retryRandom := PickIndex(env.retrySample, 10000);
      var retryCode := EntryCode(env.retryClock, retryRandom, 4);
      inserts := [first, ParticipantInsert(raffleId, env.name, email, env.phone, retryCode)];
      var retryReply := env.retryReply;
      if retryReply.DbError? {
        if retryReply.code == CodeForeignKey {
          error := Some(MsgRetryRaffleGone);
        } else {
          error := Some(MsgTryAgain);
        }
        return;
      }
      RecordStored(retryReply);
    }

    /** Success is set first; reading the entry code of a missing row throws,
        and the `catch` shows the generic error. */
    method RecordStored(reply: InsertReply)
      requires !reply.DbError? && error == None
      modifies this`error, this`success, this`entryCode
      ensures success
      ensures reply.Row? ==> entryCode == Some(reply.entryCode) && error == None
      ensures reply.NoRow? ==> entryCode == old(entryCode) && error == Some(MsgUnexpected)
    {
      success := true;
      if reply.Row? {
        entryCode := Some(reply.entryCode);
      } else {
        error := Some(MsgUnexpected);
      }
    }
  }
}
