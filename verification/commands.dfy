/** Routing of IRC messages to the bot's commands (`handle_message` in src/message.rs).

    Only private messages count, and only those whose reply would go to the configured
    command channel; the reply is sent there.  What the handler would otherwise read from
    the machine (the tmux session listing, the clock, YouTube pages, the archive listing)
    comes in through `World`. */
module Commands {
  import opened Errors
  import opened Text
  import opened Config
  import opened Status
  import opened Query

  /** The part of an IRC command the handler inspects. */
  datatype Command = Privmsg(target: string, text: string) | OtherCommand

  datatype IrcMessage = IrcMessage(command: Command, sourceNickname: Option<string>)

  /** A message the bot sends. */
  datatype Outgoing = SendPrivmsg(target: string, text: string)

  /** What the commands read from outside: the output of `tmux list-sessions` (or the
      error of running it), the current Unix time, the channel-page lookup of
      `get_youtube_user`, and the output of `ts ls` for a folder. */
  datatype World = World(
    sessions: Result<string>,
    now: U64,
    fetchUser: string -> Result<Option<string>>,
    listFiles: string -> Result<string>)

  /** `Message::response_target`: a message to a channel is answered in the channel,
      anything else is answered to its sender. */
  function ResponseTarget(m: IrcMessage): Option<string>
  {
    match m.command
    case Privmsg(target, _) => if IsChannelName(target) then Some(target) else m.sourceNickname
    case OtherCommand => m.sourceNickname
  }

  /** The reply to `!help`. */
  const HELP_TEXT: string :=
    "Usage: !help | !status | !a <user or channel or playlist or /watch URL> | !q <user or channel or playlist or /watch URL>"

  /** `msg.splitn(2, ' ').last()`: the text after the first space, or all of it. */
  function Argument(text: string): (r: string)
    ensures Contains(text, ' ') ==> exists k :: (0 <= k < |text| && text[k] == ' '
      && !Contains(text[..k], ' ') && r == text[k + 1..])
    ensures !Contains(text, ' ') ==> r == text
  {
    var head := Before(text, ' ');
    if |head| < |text| then text[|head| + 1..] else text
  }

  /** The argument of a `!q ` command is everything after the prefix. */
  lemma QueryArgument(text: string)
    requires StartsWith(text, "!q ")
    ensures Argument(text) == text[3..]
  {
    assert text == "!q" + [' '] + text[3..];
    BeforeSeparator("!q", ' ', text[3..]);
  }

  /** A private message whose reply goes to the command channel and whose sender is known. */
  predicate Addressed(m: IrcMessage, params: Parameters)
  {
    m.command.Privmsg? && m.sourceNickname.Some? && ResponseTarget(m) == Some(params.commandChannel)
  }

  /** `handle_message`.  `Ok(None)` means nothing is sent; a panic aborts the handler. */
  function HandleMessage(m: IrcMessage, params: Parameters, world: World): (r: Result<Option<Outgoing>>)
    ensures m.command.OtherCommand? ==> r == Ok(None)
    ensures m.command.Privmsg? && m.sourceNickname.None? ==> r.Err? && r.error.Panic?
    ensures r.Ok? && r.value.Some? ==>
      Addressed(m, params) && r.value.value.target == params.commandChannel
    ensures m.command.Privmsg? && m.sourceNickname.Some? && !Addressed(m, params) ==> r == Ok(None)
    ensures Addressed(m, params) && m.command.text == "!help" ==>
      r == Ok(Some(SendPrivmsg(params.commandChannel, HELP_TEXT)))
    ensures Addressed(m, params) && m.command.text == "!status" ==>
      var status := GetStatus(world.sessions, world.now);
      && (status.Ok? ==> r == Ok(Some(SendPrivmsg(params.commandChannel, status.value))))
      && (status.Err? ==> r.Err? && r.error.Panic?)
    ensures Addressed(m, params) && StartsWith(m.command.text, "!q ") ==>
      var user := m.sourceNickname.value;
      var answer := GetQuery(m.command.text[3..], world.fetchUser, world.listFiles);
      && (answer.Ok? ==> r == Ok(Some(SendPrivmsg(params.commandChannel, user + ": " + answer.value))))
      && (answer.Err? && answer.error.Message? ==>
            r == Ok(Some(SendPrivmsg(params.commandChannel, user + ": error: " + answer.error.text))))
      && (answer.Err? && answer.error.Panic? ==> r.Err? && r.error.Panic?)
    ensures (Addressed(m, params) && m.command.text != "!help" && m.command.text != "!status"
      && !StartsWith(m.command.text, "!q ")) ==> r == Ok(None)
  {
    match m.command
    case OtherCommand => Ok(None)
    case Privmsg(_, text) =>
      match m.sourceNickname
      case None => Err(Panic("message without a source nickname"))
      case Some(user) =>
        var channel := params.commandChannel;
        if ResponseTarget(m) != Some(channel) then Ok(None)
        else if text == "!help" then
          assert !StartsWith(text, "!q ") by { assert text[1] == 'h'; }
          Ok(Some(SendPrivmsg(channel, HELP_TEXT)))
        else if text == "!status" then
          assert !StartsWith(text, "!q ") by { assert text[1] == 's'; }
          match GetStatus(world.sessions, world.now)
          case Err(e) => Err(e)
          case Ok(status) => Ok(Some(SendPrivmsg(channel, status)))
        else if StartsWith(text, "!q ") then
          QueryArgument(text);
          match GetQuery(Argument(text), world.fetchUser, world.listFiles)
          case Ok(reply) => Ok(Some(SendPrivmsg(channel, user + ": " + reply)))
          case Err(Message(e)) => Ok(Some(SendPrivmsg(channel, user + ": error: " + e)))
          case Err(Panic(p)) => Err(Panic(p))
        else Ok(None)
  }

  /** The bot answers exactly the three commands, spelt exactly, in the command channel,
      unless producing the answer panics. */
  lemma AnsweredExactly(m: IrcMessage, params: Parameters, world: World)
    ensures (HandleMessage(m, params, world).Ok? && HandleMessage(m, params, world).value.Some?) <==>
      (Addressed(m, params) && (
        || m.command.text == "!help"
        || (m.command.text == "!status" && GetStatus(world.sessions, world.now).Ok?)
        || (StartsWith(m.command.text, "!q ")
            && !(GetQuery(m.command.text[3..], world.fetchUser, world.listFiles).Err?
                 && GetQuery(m.command.text[3..], world.fetchUser, world.listFiles).error.Panic?))))
  {
    if Addressed(m, params) && m.command.text == "!help" {
      assert !StartsWith(m.command.text, "!q ") by { assert m.command.text[1] == 'h'; }
    }
    if Addressed(m, params) && m.command.text == "!status" {
      assert !StartsWith(m.command.text, "!q ") by { assert m.command.text[1] == 's'; }
    }
  }

  /** A message sent privately to the bot is answered to its sender, which is never the
      command channel: such messages are ignored. */
  lemma PrivateMessagesIgnored(m: IrcMessage, params: Parameters, world: World)
    requires m.command.Privmsg? && !IsChannelName(m.command.target)
    requires m.sourceNickname.Some? && !IsChannelName(m.sourceNickname.value)
    requires IsChannelName(params.commandChannel)
    ensures HandleMessage(m, params, world) == Ok(None)
  {
  }

  /** A command spelt with anything around it (say `!help ` or `!statusx`) gets no answer. */
  lemma InexactCommandsIgnored(m: IrcMessage, params: Parameters, world: World, extra: string)
    requires Addressed(m, params) && |extra| > 0
    requires m.command.text == "!help" + extra || m.command.text == "!status" + extra
    ensures HandleMessage(m, params, world) == Ok(None)
  {
    var text := m.command.text;
    assert text[1] == 'h' || text[1] == 's';
    assert !StartsWith(text, "!q ");
  }
}
