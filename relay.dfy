/**
 * The relay loop: for every update of a polled batch, find the message's
 * text (inline text first, else a `.txt` document downloaded through the
 * bot API), write it as commands, forward the message to every cantor,
 * write it again, react to it, and move the polling cursor past the update.
 *
 * Every call to the outside world (the bot API, the file download, the
 * store's write and read transactions) is recorded as an effect, and its
 * answer comes from an environment of functions that see the effects made
 * so far, so an answer may depend on everything that happened before it.
 */
module Relay {
  import opened Base
  import opened Users

  type UpdateId = x: nat | x < 0x1_0000_0000

  datatype Document = Document(fileId: string, fileName: Option<string>)

  datatype Message = Message(messageId: int, chatId: int, text: Option<string>, document: Option<Document>)

  datatype UpdateContent = MessageUpdate(message: Message) | OtherUpdate

  datatype Update = Update(updateId: UpdateId, content: UpdateContent)

  /** The arguments `forward_message` gives the bot API. */
  datatype ForwardParams = ForwardParams(chatId: int, fromChatId: int, messageId: int)

  /** The arguments `set_reaction` gives the bot API. */
  datatype ReactionParams = ReactionParams(chatId: int, messageId: int, emoji: string)

  /** A call from the relay loop to the outside world. */
  datatype Effect =
    | GetUpdates(offset: int)
    | GetFile(fileId: string)
    | Download(url: string)
    | Write(userId: ObjectId, text: string)
    | ReadCantors
    | Forward(forward: ForwardParams)
    | React(reaction: ReactionParams)

  /**
   * The answers of the outside world, each given the effects made before it:
   * the bot API, the file download, the write transaction that queues a
   * user's text, the read transaction that lists the cantors' chat ids,
   * together with the bot token and the chat-id-to-identity function.
   */
  datatype Env = Env(
    token: string,
    idFromTelegramId: int -> ObjectId,
    getUpdates: (seq<Effect>, int) -> Result<seq<Update>>,
    getFile: (seq<Effect>, string) -> Result<Option<string>>,
    download: (seq<Effect>, string) -> Result<string>,
    write: (seq<Effect>, ObjectId, string) -> Outcome,
    cantors: seq<Effect> -> Result<seq<int>>,
    forward: (seq<Effect>, ForwardParams) -> Outcome,
    react: (seq<Effect>, ReactionParams) -> Outcome)

  /** The effects one piece of the loop makes and how it ends. */
  datatype Out = Out(effects: seq<Effect>, outcome: Outcome)

  const Reaction: string := "\U{270D}\U{FE0F}"
  const WriteContext: string := "Can not lock chest and initiate write transaction"
  const ReadContext: string := "Can not lock all write operations on chest and initiate read transaction"

  function FileUrl(token: string, filePath: string): string
  {
    "https://api.telegram.org/file/bot" + token + "/" + filePath
  }

  predicate EndsWith(s: string, suffix: string)
  {
    |suffix| <= |s| && s[|s| - |suffix|..] == suffix
  }

  /** `ends_with` holds exactly when the string is something followed by the suffix. */
  lemma EndsWithIff(s: string, suffix: string)
    ensures EndsWith(s, suffix) <==> exists p: string :: p + suffix == s
  {
    if EndsWith(s, suffix) {
      var p := s[..|s| - |suffix|];
      assert p + suffix == s;
    }
    if exists p: string :: p + suffix == s {
      var p: string :| p + suffix == s;
      assert s[|s| - |suffix|..] == suffix;
    }
  }

  /** The file id of a message's document when the document's name ends in `.txt`. */
  function GetFileId(m: Message): (r: Option<string>)
    ensures r.Some? ==> m.document.Some? && r.value == m.document.value.fileId
    ensures r.Some? ==> m.document.value.fileName.Some? && EndsWith(m.document.value.fileName.value, ".txt")
  {
    match m.document
    case None => None
    case Some(document) =>
      match document.fileName
      case None => None
      case Some(fileName) => if EndsWith(fileName, ".txt") then Some(document.fileId) else None
  }

  /**
   * A file id is given exactly for a document that has a name made of
   * something followed by `.txt`, and it is that document's file id.
   */
  lemma GetFileIdIff(m: Message)
    ensures GetFileId(m).Some? <==>
      m.document.Some? && m.document.value.fileName.Some? &&
      exists p: string :: p + ".txt" == m.document.value.fileName.value
    ensures GetFileId(m).Some? ==> GetFileId(m).value == m.document.value.fileId
  {
    if m.document.Some? && m.document.value.fileName.Some? {
      EndsWithIff(m.document.value.fileName.value, ".txt");
    }
  }

  /** The effects of finding a message's text, and the text found, if any, or the error that stops the loop. */
  datatype Resolved = Resolved(effects: seq<Effect>, text: Result<Option<string>>)

  /**
   * Inline text is used as it is; otherwise a `.txt` document is fetched.
   * A failed `get_file` or a missing file path gives no text; a failed
   * download is an error.
   */
  function ResolveText(env: Env, h: seq<Effect>, m: Message): Resolved
  {
    match m.text
    case Some(t) => Resolved([], Ok(Some(t)))
    case None =>
      match GetFileId(m)
      case None => Resolved([], Ok(None))
      case Some(fileId) =>
        match env.getFile(h, fileId)
        case Err(_) => Resolved([GetFile(fileId)], Ok(None))
        case Ok(None) => Resolved([GetFile(fileId)], Ok(None))
        case Ok(Some(path)) =>
          var url := FileUrl(env.token, path);
          match env.download(h + [GetFile(fileId)], url)
          case Err(e) => Resolved([GetFile(fileId), Download(url)], Err(e))
          case Ok(t) => Resolved([GetFile(fileId), Download(url)], Ok(Some(t)))
  }

  /** The message has no text exactly when it has no inline text and no `.txt` document whose path the bot API gives. */
  lemma NoTextIff(env: Env, h: seq<Effect>, m: Message)
    ensures ResolveText(env, h, m).text == Ok(None) <==>
      m.text.None? &&
      (GetFileId(m).None? || env.getFile(h, GetFileId(m).value).Err? || env.getFile(h, GetFileId(m).value).value.None?)
    ensures ResolveText(env, h, m).text.Ok? ==> forall e :: e in ResolveText(env, h, m).effects ==> e.GetFile? || e.Download?
  {
  }

  /** Forwards of the message, one per cantor chat id, in the order given. */
  function ForwardsTo(ids: seq<int>, messageId: int): (r: seq<Effect>)
  {
    MapSeq(ids, (id: int) => Forward(ForwardParams(id, id, messageId)))
  }

  /** Forwards the message to each id in order, stopping at the first failure. */
  function Forwards(env: Env, h: seq<Effect>, ids: seq<int>, messageId: int): (r: Out)
    decreases |ids|
    ensures |r.effects| <= |ids|
    ensures r.outcome.Fail? ==> r.effects != []
  {
    if ids == [] then Out([], Pass)
    else
      var params := ForwardParams(ids[0], ids[0], messageId);
      match env.forward(h, params)
      case Fail(e) => Out([Forward(params)], Fail(e))
      case Pass =>
        var rest := Forwards(env, h + [Forward(params)], ids[1..], messageId);
        Out([Forward(params)] + rest.effects, rest.outcome)
  }

  /** The forwards made are the first ones of the plan, all of them when none failed. */
  lemma {:induction false} ForwardsFollowPlan(env: Env, h: seq<Effect>, ids: seq<int>, messageId: int)
    decreases |ids|
    ensures var f := Forwards(env, h, ids, messageId);
      && |f.effects| <= |ids|
      && f.effects == ForwardsTo(ids, messageId)[..|f.effects|]
      && (f.outcome.Pass? ==> f.effects == ForwardsTo(ids, messageId))
  {
    if ids != [] {
      var params := ForwardParams(ids[0], ids[0], messageId);
      var plan := ForwardsTo(ids, messageId);
      if env.forward(h, params).Pass? {
        ForwardsFollowPlan(env, h + [Forward(params)], ids[1..], messageId);
        var rest := Forwards(env, h + [Forward(params)], ids[1..], messageId);
        assert plan == [Forward(params)] + ForwardsTo(ids[1..], messageId);
        assert plan[..|rest.effects| + 1] == [Forward(params)] + ForwardsTo(ids[1..], messageId)[..|rest.effects|];
      }
    }
  }

  /**
   * A failed forwarding run stopped at its last forward: the forwards to the
   * cantors before it all passed, and that forward's own error is the run's.
   */
  lemma {:induction false} ForwardsStopAtFailure(env: Env, h: seq<Effect>, ids: seq<int>, messageId: int)
    requires Forwards(env, h, ids, messageId).outcome.Fail?
    decreases |ids|
    ensures var f := Forwards(env, h, ids, messageId);
      var n := |f.effects|;
      && 1 <= n <= |ids|
      && Forwards(env, h, ids[..n - 1], messageId) == Out(f.effects[..n - 1], Pass)
      && env.forward(h + f.effects[..n - 1], ForwardParams(ids[n - 1], ids[n - 1], messageId)) == f.outcome
  {
    var params := ForwardParams(ids[0], ids[0], messageId);
    var f := Forwards(env, h, ids, messageId);
    if env.forward(h, params).Fail? {
      assert ids[..0] == [] && f.effects[..0] == [];
      assert h + [] == h;
    } else {
      var h1 := h + [Forward(params)];
      var rest := Forwards(env, h1, ids[1..], messageId);
      ForwardsStopAtFailure(env, h1, ids[1..], messageId);
      var m := |rest.effects|;
      var n := m + 1;
      assert ids[..n - 1][0] == ids[0];
      assert ids[..n - 1][1..] == ids[1..][..m - 1];
      assert f.effects[..n - 1] == [Forward(params)] + rest.effects[..m - 1];
      assert h + f.effects[..n - 1] == h1 + rest.effects[..m - 1];
      assert ids[n - 1] == ids[1..][m - 1];
    }
  }

  /** The `i`-th effect is a forward that passed, given the effects before it. */
  ghost predicate ForwardPassedAt(env: Env, h: seq<Effect>, effects: seq<Effect>, i: int)
  {
    0 <= i < |effects| && effects[i].Forward? && env.forward(h + effects[..i], effects[i].forward).Pass?
  }

  /**
   * Every forward of a run passed, except the last one of a failed run:
   * the `i`-th effect is a forward whose call succeeded given the forwards
   * before it.
   */
  lemma {:induction false} ForwardsPassed(env: Env, h: seq<Effect>, ids: seq<int>, messageId: int, i: int)
    decreases |ids|
    requires var f := Forwards(env, h, ids, messageId);
      0 <= i < |f.effects| && (i + 1 < |f.effects| || f.outcome.Pass?)
    ensures ForwardPassedAt(env, h, Forwards(env, h, ids, messageId).effects, i)
  {
    var f := Forwards(env, h, ids, messageId);
    var params := ForwardParams(ids[0], ids[0], messageId);
    if i == 0 {
      assert f.effects[..0] == [] && h + [] == h;
    } else {
      var h1 := h + [Forward(params)];
      var rest := Forwards(env, h1, ids[1..], messageId);
      assert f == Out([Forward(params)] + rest.effects, rest.outcome);
      ForwardsPassed(env, h1, ids[1..], messageId, i - 1);
      assert f.effects[i] == rest.effects[i - 1];
      assert f.effects[..i] == [Forward(params)] + rest.effects[..i - 1];
      assert h + f.effects[..i] == h1 + rest.effects[..i - 1];
    }
  }

  /**
   * The loop invariant of forwarding: the forwards `done` to the first `i`
   * chats, followed by the forwards to the rest, make the whole run.
   */
  ghost predicate ForwardsSoFar(env: Env, h: seq<Effect>, ids: seq<int>, messageId: int, done: seq<Effect>, i: nat)
  {
    i <= |ids| &&
    var rest := Forwards(env, h + done, ids[i..], messageId);
    Forwards(env, h, ids, messageId) == Out(done + rest.effects, rest.outcome)
  }

  /** One more forward keeps the invariant, or ends the run with its error. */
  lemma ForwardsAdvance(env: Env, h: seq<Effect>, ids: seq<int>, messageId: int, done: seq<Effect>, i: nat)
    requires i < |ids| && ForwardsSoFar(env, h, ids, messageId, done, i)
    ensures var f := Forward(ForwardParams(ids[i], ids[i], messageId));
      var sent := env.forward(h + done, f.forward);
      && (sent.Fail? ==> Forwards(env, h, ids, messageId) == Out(done + [f], sent))
      && (sent.Pass? ==> ForwardsSoFar(env, h, ids, messageId, done + [f], i + 1))
  {
    var f := Forward(ForwardParams(ids[i], ids[i], messageId));
    assert ids[i..][0] == ids[i];
    assert ids[i..][1..] == ids[i + 1..];
    assert h + done + [f] == h + (done + [f]);
    if env.forward(h + done, f.forward).Pass? {
      var rest := Forwards(env, h + done + [f], ids[i + 1..], messageId);
      assert done + ([f] + rest.effects) == (done + [f]) + rest.effects;
    }
  }

  lemma ForwardsDone(env: Env, h: seq<Effect>, ids: seq<int>, messageId: int, done: seq<Effect>)
    requires ForwardsSoFar(env, h, ids, messageId, done, |ids|)
    ensures Forwards(env, h, ids, messageId) == Out(done, Pass)
  {
    assert ids[|ids|..] == [];
    assert done + [] == done;
  }

  /**
   * What the loop does with a message's text: queue it in a write
   * transaction, forward the message to every cantor inside a read
   * transaction, queue it again, and react. Failures in the transactions
   * get that transaction's context line; a failed reaction stops the loop
   * as it is.
   */
  function RelayText(env: Env, h: seq<Effect>, m: Message, userId: ObjectId, text: string): Out
  {
    var write := Write(userId, text);
    match env.write(h, userId, text)
    case Fail(e) => Out([write], Fail(Context(WriteContext, e)))
    case Pass =>
      match env.cantors(h + [write])
      case Err(e) => Out([write, ReadCantors], Fail(Context(ReadContext, e)))
      case Ok(ids) =>
        var forwards := Forwards(env, h + [write, ReadCantors], ids, m.messageId);
        var done := [write, ReadCantors] + forwards.effects;
        if forwards.outcome.Fail? then Out(done, Fail(Context(ReadContext, forwards.outcome.error)))
        else
          match env.write(h + done, userId, text)
          case Fail(e) => Out(done + [write], Fail(Context(WriteContext, e)))
          case Pass =>
            var reaction := ReactionParams(m.chatId, m.messageId, Reaction);
            Out(done + [write, React(reaction)], env.react(h + done + [write], reaction))
  }

  /** The effects a text message calls for, in order, when every call succeeds. */
  function Plan(m: Message, userId: ObjectId, text: string, cantorIds: seq<int>): seq<Effect>
  {
    [Write(userId, text), ReadCantors] + ForwardsTo(cantorIds, m.messageId)
      + [Write(userId, text), React(ReactionParams(m.chatId, m.messageId, Reaction))]
  }

  /**
   * The effects for a message's text always follow the plan: they are a
   * prefix of it (with no forwards when the cantors cannot be read), and
   * all of it when the relay succeeds.
   */
  lemma {:induction false} RelayFollowsPlan(env: Env, h: seq<Effect>, m: Message, userId: ObjectId, text: string)
    ensures var ids := if env.write(h, userId, text).Pass? && env.cantors(h + [Write(userId, text)]).Ok?
                       then env.cantors(h + [Write(userId, text)]).value else [];
      var r := RelayText(env, h, m, userId, text);
      && |r.effects| <= |Plan(m, userId, text, ids)|
      && r.effects == Plan(m, userId, text, ids)[..|r.effects|]
      && (r.outcome.Pass? ==> r.effects == Plan(m, userId, text, ids))
  {
    var write := Write(userId, text);
    if env.write(h, userId, text).Pass? && env.cantors(h + [write]).Ok? {
      var ids := env.cantors(h + [write]).value;
      var plan := Plan(m, userId, text, ids);
      var forwards := Forwards(env, h + [write, ReadCantors], ids, m.messageId);
      ForwardsFollowPlan(env, h + [write, ReadCantors], ids, m.messageId);
      var fw := ForwardsTo(ids, m.messageId);
      var k := |forwards.effects|;
      assert plan[..2 + k] == [write, ReadCantors] + fw[..k];
      if forwards.outcome.Pass? {
        assert plan[..2 + k + 1] == [write, ReadCantors] + fw + [write];
        assert plan[..2 + k + 2] == plan;
      }
    } else if env.write(h, userId, text).Pass? {
      assert Plan(m, userId, text, [])[..2] == [write, ReadCantors];
    }
  }

  /**
   * The relay's call `last`, made after the effects `before`, failed and
   * gave the relay's error `outcome`: a failed write with the write
   * transaction's context line, a failed read of the cantors or a failed
   * forward with the read transaction's, or the reaction's error as it is.
   */
  ghost predicate LastCallFailed(env: Env, before: seq<Effect>, last: Effect, userId: ObjectId, text: string, outcome: Outcome)
  {
    match last
    case Write(id, t) =>
      id == userId && t == text && env.write(before, userId, text).Fail? &&
      outcome == Fail(Context(WriteContext, env.write(before, userId, text).error))
    case ReadCantors =>
      env.cantors(before).Err? && outcome == Fail(Context(ReadContext, env.cantors(before).error))
    case Forward(params) =>
      env.forward(before, params).Fail? && outcome == Fail(Context(ReadContext, env.forward(before, params).error))
    case React(reaction) =>
      env.react(before, reaction).Fail? && outcome == env.react(before, reaction)
    case _ => false
  }

  /**
   * The relay's call `call`, made after the effects `before`, passed: a
   * write of the user's text, the read of the cantors, a forward or the
   * reaction, each answered without error.
   */
  ghost predicate CallPassed(env: Env, before: seq<Effect>, call: Effect, userId: ObjectId, text: string)
  {
    match call
    case Write(id, t) => id == userId && t == text && env.write(before, userId, text).Pass?
    case ReadCantors => env.cantors(before).Ok?
    case Forward(params) => env.forward(before, params).Pass?
    case React(reaction) => env.react(before, reaction).Pass?
    case _ => false
  }

  /**
   * Every call of the relay passed, except the last one of a failed relay:
   * the relay goes on only after a call that succeeded.
   */
  lemma RelayCallsPassed(env: Env, h: seq<Effect>, m: Message, userId: ObjectId, text: string)
    ensures var r := RelayText(env, h, m, userId, text);
      forall i :: 0 <= i < |r.effects| && (i + 1 < |r.effects| || r.outcome.Pass?) ==>
        CallPassed(env, h + r.effects[..i], r.effects[i], userId, text)
  {
    var r := RelayText(env, h, m, userId, text);
    var write := Write(userId, text);
    if env.write(h, userId, text).Pass? {
      assert r.effects[..0] == [] && h + [] == h;
      assert r.effects[..1] == [write];
      if env.cantors(h + [write]).Ok? {
        var ids := env.cantors(h + [write]).value;
        var h2 := h + [write, ReadCantors];
        var forwards := Forwards(env, h2, ids, m.messageId);
        var k := |forwards.effects|;
        var done := [write, ReadCantors] + forwards.effects;
        assert h + [write] + [ReadCantors] == h2;
        assert h + done == h2 + forwards.effects;
        var second := env.write(h + done, userId, text);
        var reaction := ReactionParams(m.chatId, m.messageId, Reaction);
        assert forwards.outcome.Fail? ==> r == Out(done, Fail(Context(ReadContext, forwards.outcome.error)));
        assert forwards.outcome.Pass? && second.Fail? ==> r == Out(done + [write], Fail(Context(WriteContext, second.error)));
        assert forwards.outcome.Pass? && second.Pass? ==>
          r == Out(done + [write, React(reaction)], env.react(h + done + [write], reaction));
        forall i | 0 <= i < |r.effects| && (i + 1 < |r.effects| || r.outcome.Pass?)
          ensures CallPassed(env, h + r.effects[..i], r.effects[i], userId, text)
        {
          if i == 0 {
            assert r.effects[0] == write;
          } else if i == 1 {
            assert r.effects[1] == ReadCantors;
          } else if i < 2 + k {
            ForwardsPassed(env, h2, ids, m.messageId, i - 2);
            assert r.effects[i] == forwards.effects[i - 2];
            assert r.effects[..i] == [write, ReadCantors] + forwards.effects[..i - 2];
            assert h + r.effects[..i] == h2 + forwards.effects[..i - 2];
          } else if i == 2 + k {
            assert forwards.outcome.Pass? && second.Pass?;
            assert r.effects[i] == write;
            assert r.effects[..i] == done;
          } else {
            assert forwards.outcome.Pass? && second.Pass? && r.outcome.Pass?;
            assert r.effects[i] == React(reaction);
            assert r.effects[..i] == done + [write];
            assert h + (done + [write]) == h + done + [write];
          }
        }
      }
    }
  }

  /** The relay failing at its forward to the cantors: the last forward made failed. */
  lemma RelayForwardFailed(env: Env, h: seq<Effect>, m: Message, userId: ObjectId, text: string)
    requires env.write(h, userId, text).Pass? && env.cantors(h + [Write(userId, text)]).Ok?
    requires var h2 := h + [Write(userId, text), ReadCantors];
      Forwards(env, h2, env.cantors(h + [Write(userId, text)]).value, m.messageId).outcome.Fail?
    ensures var r := RelayText(env, h, m, userId, text);
      var forwards := Forwards(env, h + [Write(userId, text), ReadCantors], env.cantors(h + [Write(userId, text)]).value, m.messageId);
      && r.effects == [Write(userId, text), ReadCantors] + forwards.effects
      && r.outcome == Fail(Context(ReadContext, forwards.outcome.error))
      && 3 <= |r.effects| && r.effects[|r.effects| - 1].Forward?
      && LastCallFailed(env, h + r.effects[..|r.effects| - 1], r.effects[|r.effects| - 1], userId, text, r.outcome)
  {
    var write := Write(userId, text);
    var ids := env.cantors(h + [write]).value;
    var h2 := h + [write, ReadCantors];
    var forwards := Forwards(env, h2, ids, m.messageId);
    var r := RelayText(env, h, m, userId, text);
    assert r.effects == [write, ReadCantors] + forwards.effects;
    ForwardsStopAtFailure(env, h2, ids, m.messageId);
    ForwardsFollowPlan(env, h2, ids, m.messageId);
    var k := |forwards.effects|;
    var params := ForwardParams(ids[k - 1], ids[k - 1], m.messageId);
    assert forwards.effects[k - 1] == ForwardsTo(ids, m.messageId)[k - 1] == Forward(params);
    assert r.effects[..|r.effects| - 1] == [write, ReadCantors] + forwards.effects[..k - 1];
    assert h + r.effects[..|r.effects| - 1] == h2 + forwards.effects[..k - 1];
    assert r.effects[|r.effects| - 1] == Forward(params);
  }

  /**
   * A failed relay stopped at its last call, and the error is that call's
   * own, with its transaction's context line. A failed first write makes no
   * other call: no forward and no reaction.
   */
  lemma RelayStopsAtFailure(env: Env, h: seq<Effect>, m: Message, userId: ObjectId, text: string)
    requires RelayText(env, h, m, userId, text).outcome.Fail?
    ensures var r := RelayText(env, h, m, userId, text);
      1 <= |r.effects| &&
      LastCallFailed(env, h + r.effects[..|r.effects| - 1], r.effects[|r.effects| - 1], userId, text, r.outcome)
    ensures var r := RelayText(env, h, m, userId, text);
      forall i :: 0 <= i < |r.effects| - 1 ==> CallPassed(env, h + r.effects[..i], r.effects[i], userId, text)
    ensures env.write(h, userId, text).Fail? ==> RelayText(env, h, m, userId, text).effects == [Write(userId, text)]
    ensures env.write(h, userId, text).Pass? && env.cantors(h + [Write(userId, text)]).Err? ==>
      RelayText(env, h, m, userId, text).effects == [Write(userId, text), ReadCantors]
  {
    RelayCallsPassed(env, h, m, userId, text);
    var r := RelayText(env, h, m, userId, text);
    var write := Write(userId, text);
    if env.write(h, userId, text).Fail? {
      assert r.effects[..0] == [] && h + [] == h;
    } else if env.cantors(h + [write]).Err? {
      assert r.effects[..1] == [write];
    } else {
      var ids := env.cantors(h + [write]).value;
      var h2 := h + [write, ReadCantors];
      var forwards := Forwards(env, h2, ids, m.messageId);
      if forwards.outcome.Fail? {
        RelayForwardFailed(env, h, m, userId, text);
      } else {
        var done := [write, ReadCantors] + forwards.effects;
        assert h + [write] + [ReadCantors] == h2;
        assert h + done == h2 + forwards.effects;
        if env.write(h + done, userId, text).Fail? {
          assert r.effects[..|r.effects| - 1] == done;
        } else {
          assert r.effects[..|r.effects| - 1] == done + [write];
          assert h + (done + [write]) == h + done + [write];
        }
      }
    }
  }

  /** The effects of one update and how it ends. */
  function UpdateEffects(env: Env, h: seq<Effect>, u: Update): Out
  {
    match u.content
    case OtherUpdate => Out([], Pass)
    case MessageUpdate(m) =>
      var resolved := ResolveText(env, h, m);
      match resolved.text
      case Err(e) => Out(resolved.effects, Fail(e))
      case Ok(None) => Out(resolved.effects, Pass)
      case Ok(Some(text)) =>
        var relay := RelayText(env, h + resolved.effects, m, env.idFromTelegramId(m.chatId), text);
        Out(resolved.effects + relay.effects, relay.outcome)
  }

  /** The plan of a relay begins with the write of the text and never fetches a file. */
  lemma PlanFetchesNoFile(m: Message, userId: ObjectId, text: string, cantorIds: seq<int>)
    ensures Plan(m, userId, text, cantorIds)[0] == Write(userId, text)
    ensures forall e :: e in Plan(m, userId, text, cantorIds) ==> !e.GetFile? && !e.Download?
  {
    var plan := Plan(m, userId, text, cantorIds);
    var fw := ForwardsTo(cantorIds, m.messageId);
    forall e | e in plan ensures !e.GetFile? && !e.Download? {
      if e in fw {
        var k :| 0 <= k < |fw| && fw[k] == e;
      }
    }
  }

  /**
   * A message with inline text is never looked at for a document: its
   * first effect is the write of that very text, for the sender.
   */
  lemma InlineTextComesFirst(env: Env, h: seq<Effect>, u: Update, m: Message, t: string)
    requires u.content == MessageUpdate(m)
    requires m.text == Some(t)
    ensures var out := UpdateEffects(env, h, u);
      && out.effects != []
      && out.effects[0] == Write(env.idFromTelegramId(m.chatId), t)
      && forall e :: e in out.effects ==> !e.GetFile? && !e.Download?
  {
    var uid := env.idFromTelegramId(m.chatId);
    RelayFollowsPlan(env, h, m, uid, t);
    var out := RelayText(env, h, m, uid, t);
    assert h + [] == h;
    TextIsRelayed(env, h, u, m, t);
    assert [] + out.effects == out.effects;
    var ids := if env.write(h, uid, t).Pass? && env.cantors(h + [Write(uid, t)]).Ok?
               then env.cantors(h + [Write(uid, t)]).value else [];
    var plan := Plan(m, uid, t, ids);
    PlanFetchesNoFile(m, uid, t, ids);
    forall e | e in out.effects ensures e in plan {
      var k :| 0 <= k < |out.effects| && out.effects[k] == e;
      assert plan[..|out.effects|][k] == plan[k];
    }
  }

  /** Without text there is no write, no forward and no reaction, and the update is handled without error. */
  lemma NoTextNoRelay(env: Env, h: seq<Effect>, u: Update, m: Message)
    requires u.content == MessageUpdate(m)
    requires ResolveText(env, h, m).text == Ok(None)
    ensures var out := UpdateEffects(env, h, u);
      out.outcome.Pass? && forall e :: e in out.effects ==> e.GetFile?
  {
  }

  /** Finding the text of a message only ever fetches a file. */
  lemma ResolvingOnlyFetches(env: Env, h: seq<Effect>, m: Message)
    ensures forall e :: e in ResolveText(env, h, m).effects ==> e.GetFile? || e.Download?
  {
  }

  /** A message whose text is found is handled by relaying that text, after the effects of finding it. */
  lemma TextIsRelayed(env: Env, h: seq<Effect>, u: Update, m: Message, text: string)
    requires u.content == MessageUpdate(m)
    requires ResolveText(env, h, m).text == Ok(Some(text))
    ensures var resolved := ResolveText(env, h, m);
      var relay := RelayText(env, h + resolved.effects, m, env.idFromTelegramId(m.chatId), text);
      UpdateEffects(env, h, u) == Out(resolved.effects + relay.effects, relay.outcome)
  {
  }

  /** The plan of a relay writes the text exactly twice. */
  lemma PlanWritesTwice(m: Message, userId: ObjectId, text: string, cantorIds: seq<int>)
    ensures multiset(Plan(m, userId, text, cantorIds))[Write(userId, text)] == 2
  {
    var w := Write(userId, text);
    var fw := ForwardsTo(cantorIds, m.messageId);
    var last := [w, React(ReactionParams(m.chatId, m.messageId, Reaction))];
    assert w !in fw;
    assert multiset([w, ReadCantors] + fw + last)[w] == multiset([w, ReadCantors])[w] + multiset(fw)[w] + multiset(last)[w];
  }

  /**
   * A text message handled without error is written twice with the same
   * text for the same user: before the forwards and after them.
   */
  lemma TextWrittenTwice(env: Env, h: seq<Effect>, u: Update, m: Message, text: string)
    requires u.content == MessageUpdate(m)
    requires ResolveText(env, h, m).text == Ok(Some(text))
    requires UpdateEffects(env, h, u).outcome.Pass?
    ensures var effects := UpdateEffects(env, h, u).effects;
      multiset(effects)[Write(env.idFromTelegramId(m.chatId), text)] == 2
  {
    var uid := env.idFromTelegramId(m.chatId);
    var resolved := ResolveText(env, h, m);
    var h1 := h + resolved.effects;
    var w := Write(uid, text);
    var relay := RelayText(env, h1, m, uid, text);
    TextIsRelayed(env, h, u, m, text);
    ResolvingOnlyFetches(env, h, m);
    assert env.write(h1, uid, text).Pass? && env.cantors(h1 + [w]).Ok?;
    RelayFollowsPlan(env, h1, m, uid, text);
    var ids := env.cantors(h1 + [w]).value;
    var plan := Plan(m, uid, text, ids);
    assert relay.effects == plan;
    PlanWritesTwice(m, uid, text, ids);
    assert w !in resolved.effects;
    assert multiset(resolved.effects + plan)[w] == multiset(resolved.effects)[w] + multiset(plan)[w];
  }

  /** What a batch of updates leaves: effects, the cursor, how many updates were handled, and the outcome. */
  datatype BatchOut = BatchOut(effects: seq<Effect>, offset: int, handled: nat, outcome: Outcome)

  /** Handling one update after a history of effects. */
  type Handler = (seq<Effect>, Update) -> Out

  /** Asking for the updates from a cursor on, after a history of effects. */
  type Poller = (seq<Effect>, int) -> Result<seq<Update>>

  /** The bot's own handler. */
  function Handle(env: Env): Handler
  {
    (h: seq<Effect>, u: Update) => UpdateEffects(env, h, u)
  }

  /**
   * The updates of one batch in order; after each one handled without
   * error the cursor becomes its id plus one. An error ends the batch with
   * the cursor where it was.
   */
  function Batch(handle: Handler, h: seq<Effect>, updates: seq<Update>, offset: int): (b: BatchOut)
    decreases |updates|
    ensures b.handled <= |updates|
    ensures b.outcome.Pass? ==> b.handled == |updates|
  {
    if updates == [] then BatchOut([], offset, 0, Pass)
    else
      var out := handle(h, updates[0]);
      if out.outcome.Fail? then BatchOut(out.effects, offset, 0, out.outcome)
      else
        var rest := Batch(handle, h + out.effects, updates[1..], updates[0].updateId as int + 1);
        BatchOut(out.effects + rest.effects, rest.offset, rest.handled + 1, rest.outcome)
  }

  /**
   * The cursor after a batch is one past the last update handled (or where
   * it started when none was), and every update is handled when the batch
   * passes. With a handler that never fails on anything but a message, a
   * failing batch stopped at a message update.
   */
  lemma {:induction false} BatchCursor(handle: Handler, h: seq<Effect>, updates: seq<Update>, offset: int)
    decreases |updates|
    ensures var b := Batch(handle, h, updates, offset);
      && b.handled <= |updates|
      && b.offset == (if b.handled == 0 then offset else updates[b.handled - 1].updateId + 1)
      && (b.outcome.Pass? <==> b.handled == |updates|)
      && ((forall g: seq<Effect>, u: Update :: !u.content.MessageUpdate? ==> handle(g, u).outcome.Pass?) && b.outcome.Fail? ==>
            updates[b.handled].content.MessageUpdate?)
  {
    if updates != [] {
      var out := handle(h, updates[0]);
      if out.outcome.Pass? {
        BatchCursor(handle, h + out.effects, updates[1..], updates[0].updateId as int + 1);
      }
    }
  }

  /**
   * The bot skips every update that is not a message, so a batch of its
   * own stops only at a message update, and the cursor stays just past the
   * update handled before that message.
   */
  lemma BatchStopsAtMessage(env: Env, h: seq<Effect>, updates: seq<Update>, offset: int)
    ensures var b := Batch(Handle(env), h, updates, offset);
      b.outcome.Fail? ==>
        && b.handled < |updates|
        && updates[b.handled].content.MessageUpdate?
        && b.offset == (if b.handled == 0 then offset else updates[b.handled - 1].updateId + 1)
  {
    forall g: seq<Effect>, u: Update | !u.content.MessageUpdate?
      ensures Handle(env)(g, u).outcome.Pass?
    {
    }
    BatchCursor(Handle(env), h, updates, offset);
  }

  /**
   * One round of the polling loop: ask for the updates from the cursor on,
   * then handle them as a batch. A failed request ends the round with the
   * cursor unchanged.
   */
  function Round(poll: Poller, handle: Handler, h: seq<Effect>, offset: int): BatchOut
  {
    match poll(h, offset)
    case Err(e) => BatchOut([GetUpdates(offset)], offset, 0, Fail(e))
    case Ok(updates) =>
      var batch := Batch(handle, h + [GetUpdates(offset)], updates, offset);
      BatchOut([GetUpdates(offset)] + batch.effects, batch.offset, batch.handled, batch.outcome)
  }

  /** A round that gets its updates is the request followed by the batch of those updates. */
  lemma RoundOfBatch(poll: Poller, handle: Handler, h: seq<Effect>, offset: int, updates: seq<Update>)
    requires poll(h, offset) == Ok(updates)
    ensures var b := Batch(handle, h + [GetUpdates(offset)], updates, offset);
      Round(poll, handle, h, offset) == BatchOut([GetUpdates(offset)] + b.effects, b.offset, b.handled, b.outcome)
  {
  }

  /** `polls` rounds of the polling loop, each one carrying on from the cursor the last one left. */
  function Polls(poll: Poller, handle: Handler, h: seq<Effect>, offset: int, polls: nat): Out
    decreases polls
  {
    if polls == 0 then Out([], Pass)
    else
      var round := Round(poll, handle, h, offset);
      if round.outcome.Fail? then Out(round.effects, round.outcome)
      else
        var rest := Polls(poll, handle, h + round.effects, round.offset, polls - 1);
        Out(round.effects + rest.effects, rest.outcome)
  }

  /** Every forward among the effects names the same chat as target and as source. */
  ghost predicate ForwardsOneChat(effects: seq<Effect>)
  {
    forall e :: e in effects && e.Forward? ==> e.forward.chatId == e.forward.fromChatId
  }

  /** The plan of a relay forwards only from a chat to that same chat. */
  lemma PlanForwardsOneChat(m: Message, userId: ObjectId, text: string, cantorIds: seq<int>)
    ensures ForwardsOneChat(Plan(m, userId, text, cantorIds))
  {
    var fw := ForwardsTo(cantorIds, m.messageId);
    forall e | e in fw ensures e.Forward? && e.forward.chatId == e.forward.fromChatId {
      var k :| 0 <= k < |fw| && fw[k] == e;
    }
  }

  /** Handling one update forwards only from a chat to that same chat. */
  lemma UpdateForwardsOneChat(env: Env, h: seq<Effect>, u: Update)
    ensures ForwardsOneChat(UpdateEffects(env, h, u).effects)
  {
    if u.content.MessageUpdate? {
      var m := u.content.message;
      var resolved := ResolveText(env, h, m);
      ResolvingOnlyFetches(env, h, m);
      if resolved.text.Ok? && resolved.text.value.Some? {
        var text := resolved.text.value.value;
        var uid := env.idFromTelegramId(m.chatId);
        var relay := RelayText(env, h + resolved.effects, m, uid, text);
        TextIsRelayed(env, h, u, m, text);
        RelayFollowsPlan(env, h + resolved.effects, m, uid, text);
        var ids := if env.write(h + resolved.effects, uid, text).Pass? && env.cantors(h + resolved.effects + [Write(uid, text)]).Ok?
                   then env.cantors(h + resolved.effects + [Write(uid, text)]).value else [];
        var plan := Plan(m, uid, text, ids);
        PlanForwardsOneChat(m, uid, text, ids);
        forall e | e in relay.effects ensures e in plan {
          var k :| 0 <= k < |relay.effects| && relay.effects[k] == e;
          assert plan[..|relay.effects|][k] == e;
        }
      }
    }
  }

  /** A batch forwards only from a chat to that same chat when each handled update does. */
  lemma {:induction false} BatchForwards(handle: Handler, h: seq<Effect>, updates: seq<Update>, offset: int)
    requires forall g: seq<Effect>, u: Update :: ForwardsOneChat(handle(g, u).effects)
    decreases |updates|
    ensures ForwardsOneChat(Batch(handle, h, updates, offset).effects)
  {
    if updates != [] {
      var out := handle(h, updates[0]);
      if out.outcome.Pass? {
        BatchForwards(handle, h + out.effects, updates[1..], updates[0].updateId as int + 1);
      }
    }
  }

  /** So do any number of rounds of the polling loop. */
  lemma {:induction false} PollsForwards(poll: Poller, handle: Handler, h: seq<Effect>, offset: int, polls: nat)
    requires forall g: seq<Effect>, u: Update :: ForwardsOneChat(handle(g, u).effects)
    decreases polls
    ensures ForwardsOneChat(Polls(poll, handle, h, offset, polls).effects)
  {
    if polls > 0 {
      var round := Round(poll, handle, h, offset);
      if poll(h, offset).Ok? {
        BatchForwards(handle, h + [GetUpdates(offset)], poll(h, offset).value, offset);
      }
      if round.outcome.Pass? {
        PollsForwards(poll, handle, h + round.effects, round.offset, polls - 1);
      }
    }
  }

  /**
   * Every forward the bot makes, in any round, names the same chat as
   * target and as source.
   */
  lemma ForwardsNameOneChat(env: Env, h: seq<Effect>, polls: nat)
    ensures ForwardsOneChat(Polls(env.getUpdates, Handle(env), h, 0, polls).effects)
  {
    forall g: seq<Effect>, u: Update ensures ForwardsOneChat(Handle(env)(g, u).effects) {
      UpdateForwardsOneChat(env, g, u);
    }
    PollsForwards(env.getUpdates, Handle(env), h, 0, polls);
  }

  /**
   * The loop invariant of a batch: the effects `done` of the first `i`
   * updates, followed by the rest of the batch from where they left the
   * cursor, make the whole batch.
   */
  ghost predicate BatchSoFar(handle: Handler, h: seq<Effect>, updates: seq<Update>, offset: int,
                             done: seq<Effect>, i: nat, cursor: int)
  {
    i <= |updates| &&
    var rest := Batch(handle, h + done, updates[i..], cursor);
    Batch(handle, h, updates, offset) == BatchOut(done + rest.effects, rest.offset, i + rest.handled, rest.outcome)
  }

  /** One more update handled keeps the batch invariant, or ends the batch where it failed. */
  lemma BatchAdvance(handle: Handler, h: seq<Effect>, updates: seq<Update>, offset: int,
                     done: seq<Effect>, i: nat, cursor: int)
    requires i < |updates| && BatchSoFar(handle, h, updates, offset, done, i, cursor)
    ensures var out := handle(h + done, updates[i]);
      && (out.outcome.Fail? ==> Batch(handle, h, updates, offset) == BatchOut(done + out.effects, cursor, i, out.outcome))
      && (out.outcome.Pass? ==>
            BatchSoFar(handle, h, updates, offset, done + out.effects, i + 1, updates[i].updateId as int + 1))
  {
    var out := handle(h + done, updates[i]);
    assert updates[i..][0] == updates[i];
    assert updates[i..][1..] == updates[i + 1..];
    assert h + done + out.effects == h + (done + out.effects);
    if out.outcome.Pass? {
      var rest := Batch(handle, h + done + out.effects, updates[i + 1..], updates[i].updateId as int + 1);
      assert done + (out.effects + rest.effects) == (done + out.effects) + rest.effects;
    }
  }

  lemma BatchDone(handle: Handler, h: seq<Effect>, updates: seq<Update>, offset: int, done: seq<Effect>, cursor: int)
    requires BatchSoFar(handle, h, updates, offset, done, |updates|, cursor)
    ensures Batch(handle, h, updates, offset) == BatchOut(done, cursor, |updates|, Pass)
  {
    assert updates[|updates|..] == [];
    assert done + [] == done;
  }

  /** The loop invariant of the polling loop, as for a batch. */
  ghost predicate PollsSoFar(poll: Poller, handle: Handler, h: seq<Effect>, polls: nat,
                             done: seq<Effect>, round: nat, cursor: int)
  {
    round <= polls &&
    var rest := Polls(poll, handle, h + done, cursor, polls - round);
    Polls(poll, handle, h, 0, polls) == Out(done + rest.effects, rest.outcome)
  }

  /** One more round keeps the polling invariant, or ends the loop where it failed. */
  lemma PollsAdvance(poll: Poller, handle: Handler, h: seq<Effect>, polls: nat,
                     done: seq<Effect>, round: nat, cursor: int)
    requires round < polls && PollsSoFar(poll, handle, h, polls, done, round, cursor)
    ensures var next := Round(poll, handle, h + done, cursor);
      && (next.outcome.Fail? ==> Polls(poll, handle, h, 0, polls) == Out(done + next.effects, next.outcome))
      && (next.outcome.Pass? ==> PollsSoFar(poll, handle, h, polls, done + next.effects, round + 1, next.offset))
  {
    var next := Round(poll, handle, h + done, cursor);
    assert h + done + next.effects == h + (done + next.effects);
    if next.outcome.Pass? {
      var rest := Polls(poll, handle, h + done + next.effects, next.offset, polls - round - 1);
      assert done + (next.effects + rest.effects) == (done + next.effects) + rest.effects;
    }
  }

  lemma PollsDone(poll: Poller, handle: Handler, h: seq<Effect>, polls: nat, done: seq<Effect>, cursor: int)
    requires PollsSoFar(poll, handle, h, polls, done, polls, cursor)
    ensures Polls(poll, handle, h, 0, polls) == Out(done, Pass)
  {
    assert done + [] == done;
  }

  /** The bot: the relay loop's state is the effects it has made so far. */
  class Chant {
    const env: Env
    /** Every call made to the outside world so far, in order. */
    var trace: seq<Effect>

    constructor (env: Env)
      ensures this.env == env && trace == []
    {
      this.env := env;
      trace := [];
    }

    /** Forwards a message to `toUserId`, naming that chat as both target and source. */
    method ForwardMessage(messageId: int, toUserId: int) returns (r: Outcome)
      modifies this
      ensures trace == old(trace) + [Forward(ForwardParams(toUserId, toUserId, messageId))]
      ensures r == env.forward(old(trace), ForwardParams(toUserId, toUserId, messageId))
    {
      var params := ForwardParams(toUserId, toUserId, messageId);
      r := env.forward(trace, params);
      trace := trace + [Forward(params)];
    }

    /** Sets one emoji reaction on the message in its own chat. */
    method SetReaction(m: Message, emoji: string) returns (r: Outcome)
      modifies this
      ensures trace == old(trace) + [React(ReactionParams(m.chatId, m.messageId, emoji))]
      ensures r == env.react(old(trace), ReactionParams(m.chatId, m.messageId, emoji))
    {
      var params := ReactionParams(m.chatId, m.messageId, emoji);
      r := env.react(trace, params);
      trace := trace + [React(params)];
    }

    /** Finds a message's text: inline text as it is, else the contents of its `.txt` document. */
    method FindText(m: Message) returns (text: Result<Option<string>>)
      modifies this
      ensures var resolved := ResolveText(env, old(trace), m);
        trace == old(trace) + resolved.effects && text == resolved.text
    {
      var textOption: Option<string> := None;
      if m.text.Some? {
        textOption := Some(m.text.value);
      } else {
        var fileId := GetFileId(m);
        if fileId.Some? {
          var file := env.getFile(trace, fileId.value);
          trace := trace + [GetFile(fileId.value)];
          if file.Ok? && file.value.Some? {
            var url := FileUrl(env.token, file.value.value);
            var body := env.download(trace, url);
            trace := trace + [Download(url)];
            if body.Err? {
              return Err(body.error);
            }
            textOption := Some(body.value);
          }
        }
      }
      return Ok(textOption);
    }

    /** Forwards the message to each cantor in order, stopping at the first failure. */
    method ForwardToAll(ids: seq<int>, messageId: int) returns (r: Outcome)
      modifies this
      ensures var f := Forwards(env, old(trace), ids, messageId);
        trace == old(trace) + f.effects && r == f.outcome
    {
      ghost var done: seq<Effect> := [];
      var i := 0;
      while i < |ids|
        invariant 0 <= i <= |ids|
        invariant trace == old(trace) + done
        invariant ForwardsSoFar(env, old(trace), ids, messageId, done, i)
      {
        ForwardsAdvance(env, old(trace), ids, messageId, done, i);
        var sent := ForwardMessage(messageId, ids[i]);
        ghost var f := Forward(ForwardParams(ids[i], ids[i], messageId));
        assert trace == old(trace) + (done + [f]);
        done := done + [f];
        if sent.Fail? {
          return sent;
        }
        i := i + 1;
      }
      ForwardsDone(env, old(trace), ids, messageId, done);
      return Pass;
    }

    /** Queues the text, forwards the message to every cantor, queues the text again and reacts. */
    method RelayMessage(m: Message, userId: ObjectId, text: string) returns (r: Outcome)
      modifies this
      ensures var out := RelayText(env, old(trace), m, userId, text);
        trace == old(trace) + out.effects && r == out.outcome
    {
      var written := env.write(trace, userId, text);
      trace := trace + [Write(userId, text)];
      if written.Fail? {
        return Fail(Context(WriteContext, written.error));
      }
      var cantors := env.cantors(trace);
      trace := trace + [ReadCantors];
      if cantors.Err? {
        return Fail(Context(ReadContext, cantors.error));
      }
      assert trace == old(trace) + [Write(userId, text), ReadCantors];
      ghost var forwards := Forwards(env, trace, cantors.value, m.messageId);
      var forwarded := ForwardToAll(cantors.value, m.messageId);
      ghost var done := [Write(userId, text), ReadCantors] + forwards.effects;
      assert trace == old(trace) + done;
      if forwarded.Fail? {
        return Fail(Context(ReadContext, forwarded.error));
      }
      var rewritten := env.write(trace, userId, text);
      trace := trace + [Write(userId, text)];
      assert trace == old(trace) + (done + [Write(userId, text)]);
      if rewritten.Fail? {
        return Fail(Context(WriteContext, rewritten.error));
      }
      r := SetReaction(m, Reaction);
    }

    /** The body of the polling loop for one update. */
    method HandleUpdate(u: Update) returns (r: Outcome)
      modifies this
      ensures var out := UpdateEffects(env, old(trace), u);
        trace == old(trace) + out.effects && r == out.outcome
    {
      if !u.content.MessageUpdate? {
        return Pass;
      }
      var m := u.content.message;
      var userId := env.idFromTelegramId(m.chatId);
      var textOption := FindText(m);
      if textOption.Err? {
        return Fail(textOption.error);
      }
      if textOption.value.Some? {
        r := RelayMessage(m, userId, textOption.value.value);
      } else {
        r := Pass;
      }
    }

    /** One batch: each update in order, the cursor moved past each one handled without error. */
    method ProcessBatch(updates: seq<Update>, offset: int) returns (newOffset: int, r: Outcome)
      modifies this
      ensures var b := Batch(Handle(env), old(trace), updates, offset);
        trace == old(trace) + b.effects && newOffset == b.offset && r == b.outcome
    {
      newOffset := offset;
      ghost var done: seq<Effect> := [];
      var i := 0;
      while i < |updates|
        invariant 0 <= i <= |updates|
        invariant trace == old(trace) + done
        invariant BatchSoFar(Handle(env), old(trace), updates, offset, done, i, newOffset)
      {
        ghost var before := trace;
        ghost var out := UpdateEffects(env, before, updates[i]);
        assert Handle(env)(old(trace) + done, updates[i]) == out;
        AppendAssoc(old(trace), done, out.effects);
        var handled := HandleUpdate(updates[i]);
        BatchAdvance(Handle(env), old(trace), updates, offset, done, i, newOffset);
        assert trace == old(trace) + (done + out.effects);
        if handled.Fail? {
          return newOffset, handled;
        }
        done := done + out.effects;
        newOffset := updates[i].updateId as int + 1;
        i := i + 1;
      }
      BatchDone(Handle(env), old(trace), updates, offset, done, newOffset);
      r := Pass;
    }

    /** One round: ask for the updates from the cursor on and handle them. */
    method PollOnce(offset: int) returns (newOffset: int, r: Outcome)
      modifies this
      ensures var round := Round(env.getUpdates, Handle(env), old(trace), offset);
        trace == old(trace) + round.effects && newOffset == round.offset && r == round.outcome
    {
      var updates := env.getUpdates(trace, offset);
      trace := trace + [GetUpdates(offset)];
      if updates.Err? {
        return offset, Fail(updates.error);
      }
      RoundOfBatch(env.getUpdates, Handle(env), old(trace), offset, updates.value);
      ghost var b := Batch(Handle(env), old(trace) + [GetUpdates(offset)], updates.value, offset);
      newOffset, r := ProcessBatch(updates.value, offset);
      assert trace == old(trace) + ([GetUpdates(offset)] + b.effects);
    }

    /**
     * The polling loop, for `polls` rounds: the cursor starts at 0, each
     * round carries on from where the last one left it.
     */
    method Run(polls: nat) returns (r: Outcome)
      modifies this
      ensures var out := Polls(env.getUpdates, Handle(env), old(trace), 0, polls);
        trace == old(trace) + out.effects && r == out.outcome
    {
      var offset := 0;
      ghost var done: seq<Effect> := [];
      var round := 0;
      while round < polls
        invariant 0 <= round <= polls
        invariant trace == old(trace) + done
        invariant PollsSoFar(env.getUpdates, Handle(env), old(trace), polls, done, round, offset)
      {
        ghost var next := Round(env.getUpdates, Handle(env), old(trace) + done, offset);
        AppendAssoc(old(trace), done, next.effects);
        PollsAdvance(env.getUpdates, Handle(env), old(trace), polls, done, round, offset);
        var roundOutcome;
        offset, roundOutcome := PollOnce(offset);
        assert trace == old(trace) + (done + next.effects);
        if roundOutcome.Fail? {
          return roundOutcome;
        }
        done := done + next.effects;
        round := round + 1;
      }
      PollsDone(env.getUpdates, Handle(env), old(trace), polls, done, offset);
      r := Pass;
    }
  }
}
