/** The relay bot's handlers and its single session. The handlers are pure
    decisions: given whether the sender is authorized, the session, the
    incoming message and the outcome of the one outbound call, they say which
    call is made, which reply is sent and what the session becomes. The
    `SessionManager` class holds the session in place and runs the handlers
    against it the way the Python handlers do, step by step. */
module Bot {
  import opened Wrappers
  import opened PyStr
  import Config

  // ---------------------------------------------------------------------
  // Replies and outbound calls

  const UnauthorizedText := "\U{274C} Unauthorized"
  const UsageText := "Usage: /new <TOPIC_NAME>"
  const TopicFailedText := "\U{26A0}\U{FE0F} Topic creation failed"
  const NeedTopicText := "\U{26A0}\U{FE0F} First create topic with /new <TOPIC>"
  const PostedText := "\U{2705} Content posted in group"
  const PostFailedPrefix := "\U{26A0}\U{FE0F} Failed to post: "

  /** A reply sent back to the sender: a fixed text, the configured welcome
      message, or the topic-created template filled with name and thread id. */
  datatype Reply =
    | Text(text: string)
    | Welcome(message: Option<string>)
    | TopicCreated(template: string, topicName: string, threadId: int)

  /** A formatting entity of a text or caption, passed through untouched. */
  datatype Entity = Entity(kind: string, offset: int, length: int)

  /** A photo size, video or document: only its file id is forwarded. */
  datatype Attachment = Attachment(fileId: string)

  /** The fields of an incoming message the handlers read. `photo` lists the
      sizes of a photo from smallest to largest. */
  datatype Message = Message(
    userId: int,
    text: Option<string>,
    entities: seq<Entity>,
    caption: Option<string>,
    captionEntities: seq<Entity>,
    photo: seq<Attachment>,
    video: Option<Attachment>,
    document: Option<Attachment>)

  datatype MediaKind = Photo | Video | Document

  /** The platform calls the bot makes. `captionEntities` is `None` when the
      call leaves the argument out. */
  datatype ApiCall =
    | CreateForumTopic(chatId: Option<int>, name: string)
    | SendMessage(chatId: Option<int>, text: string, threadId: int, entities: seq<Entity>)
    | SendMedia(kind: MediaKind, chatId: Option<int>, fileId: string, caption: Option<string>,
                captionEntities: Option<seq<Entity>>, threadId: int)

  // ---------------------------------------------------------------------
  // Session

  /** The process-wide session: the active topic's name and thread id. */
  datatype Session = Session(topic: Option<string>, threadId: Option<int>)

  const NoSession := Session(None, None)

  /** `session.current_thread_id` is truthy: set and not 0. */
  predicate HasActiveTopic(s: Session)
  {
    s.threadId.Some? && s.threadId.value != 0
  }

  // ---------------------------------------------------------------------
  // /start and /help

  /** `start` and `help_command`: an unauthorized sender gets nothing, an
      authorized one the welcome message verbatim. */
  function WelcomeReply(authorized: bool, welcome: Option<string>): (r: Option<Reply>)
    ensures r.Some? <==> authorized
    ensures r.Some? ==> r.value == Welcome(welcome)
  {
    if authorized then Some(Welcome(welcome)) else None
  }

  // ---------------------------------------------------------------------
  // /new <name>

  /** The topic name: the command's arguments joined with single spaces, or
      `None` when there are none. */
  function TopicName(args: seq<string>): Option<string>
  {
    if args == [] then None else Some(Join(args, " "))
  }

  datatype NewTopicResult = NewTopicResult(call: Option<ApiCall>, reply: Reply, session: Session)

  /** `new_topic`, given the outcome of `create_forum_topic` (the new thread id,
      or the error it raised). The session is written before the reply is
      formatted, so a missing template fails the reply but keeps the new
      session. */
  function NewTopicStep(authorized: bool, s: Session, args: seq<string>, chatId: Option<int>,
                        template: Option<string>, created: Result<int, string>): (r: NewTopicResult)
    ensures !authorized ==> r == NewTopicResult(None, Text(UnauthorizedText), s)
    ensures authorized && Join(args, " ") == "" ==> r == NewTopicResult(None, Text(UsageText), s)
    ensures r.call.Some? <==> authorized && Join(args, " ") != ""
    ensures r.call.Some? ==> r.call.value == CreateForumTopic(chatId, Join(args, " "))
    ensures r.call.Some? && created.Failure? ==> r.session == s && r.reply == Text(TopicFailedText)
    ensures r.call.Some? && created.Success? ==>
              && r.session == Session(Some(Join(args, " ")), Some(created.value))
              && r.reply == (if template.Some? then TopicCreated(template.value, Join(args, " "), created.value)
                             else Text(TopicFailedText))
    ensures r.session != s ==> r.call.Some? && created.Success?
  {
    if !authorized then NewTopicResult(None, Text(UnauthorizedText), s)
    else
      var name := TopicName(args);
      if name.None? || name.value == "" then NewTopicResult(None, Text(UsageText), s)
      else
        var call := Some(CreateForumTopic(chatId, name.value));
        match created
        case Failure(_) => NewTopicResult(call, Text(TopicFailedText), s)
        case Success(threadId) =>
          var s' := Session(Some(name.value), Some(threadId));
          match template
          case None => NewTopicResult(call, Text(TopicFailedText), s')
          case Some(t) => NewTopicResult(call, TopicCreated(t, name.value, threadId), s')
  }

  /** `/new` with two empty arguments joins them to `" "`, which is truthy:
      a topic named `" "` is requested. A single empty argument is a usage
      error. */
  lemma BlankArgumentsJoin(s: Session, chatId: Option<int>, template: Option<string>, created: Result<int, string>)
    ensures NewTopicStep(true, s, ["", ""], chatId, template, created).call == Some(CreateForumTopic(chatId, " "))
    ensures NewTopicStep(true, s, [""], chatId, template, created) == NewTopicResult(None, Text(UsageText), s)
  {
    assert ["", ""][1..] == [""];
    assert Join(["", ""], " ") == " ";
  }

  // ---------------------------------------------------------------------
  // Content relay

  /** The media a message carries, photo before video before document; a
      photo is forwarded at its largest size, the last in the list. */
  function FirstMedia(m: Message): (r: Option<(MediaKind, string)>)
    ensures r.None? <==> m.photo == [] && m.video.None? && m.document.None?
    ensures r.Some? && r.value.0 == Photo ==> m.photo != [] && r.value.1 == m.photo[|m.photo| - 1].fileId
    ensures r.Some? && r.value.0 == Video ==> m.photo == [] && m.video == Some(Attachment(r.value.1))
    ensures r.Some? && r.value.0 == Document ==>
              m.photo == [] && m.video.None? && m.document == Some(Attachment(r.value.1))
  {
    if m.photo != [] then Some((Photo, m.photo[|m.photo| - 1].fileId))
    else if m.video.Some? then Some((Video, m.video.value.fileId))
    else if m.document.Some? then Some((Document, m.document.value.fileId))
    else None
  }

  /** The message content as a tagged union, in the relay's fixed precedence:
      text, then a caption with its media, then bare media. */
  datatype Content =
    | PlainText(text: string, entities: seq<Entity>)
    | CaptionedMedia(kind: MediaKind, fileId: string, caption: string, captionEntities: seq<Entity>)
    | BareMedia(kind: MediaKind, fileId: string)
    | Unsupported

  function Classify(m: Message): Content
  {
    if Config.Truthy(m.text) then PlainText(m.text.value, m.entities)
    else match FirstMedia(m)
      case None => Unsupported
      case Some((kind, fileId)) =>
        if Config.Truthy(m.caption) then CaptionedMedia(kind, fileId, m.caption.value, m.captionEntities)
        else BareMedia(kind, fileId)
  }

  /** The one call that forwards the content into a thread of the group. */
  function Forward(c: Content, chatId: Option<int>, threadId: int): Option<ApiCall>
  {
    match c
    case PlainText(text, entities) => Some(SendMessage(chatId, text, threadId, entities))
    case CaptionedMedia(kind, fileId, caption, entities) =>
      Some(SendMedia(kind, chatId, fileId, Some(caption), Some(entities), threadId))
    case BareMedia(kind, fileId) => Some(SendMedia(kind, chatId, fileId, None, None, threadId))
    case Unsupported => None
  }

  datatype Relay = Relay(call: Option<ApiCall>, reply: Option<Reply>)

  /** `copy_message`, given the error the outbound call raises, if any (it is
      ignored when no call is made). */
  function CopyMessageStep(authorized: bool, s: Session, chatId: Option<int>, m: Message,
                           failure: Option<string>): (r: Relay)
    ensures !authorized ==> r == Relay(None, None)
    ensures authorized && !HasActiveTopic(s) ==> r == Relay(None, Some(Text(NeedTopicText)))
    ensures r.call.Some? ==> authorized && HasActiveTopic(s)
    ensures authorized && HasActiveTopic(s) && Config.Truthy(m.text) ==>
              r.call == Some(SendMessage(chatId, m.text.value, s.threadId.value, m.entities))
    ensures authorized && HasActiveTopic(s) && !Config.Truthy(m.text) && Config.Truthy(m.caption) ==>
              r.call == match FirstMedia(m)
                        case None => None
                        case Some((kind, fileId)) =>
                          Some(SendMedia(kind, chatId, fileId, m.caption, Some(m.captionEntities), s.threadId.value))
    ensures authorized && HasActiveTopic(s) && !Config.Truthy(m.text) && !Config.Truthy(m.caption) ==>
              r.call == match FirstMedia(m)
                        case None => None
                        case Some((kind, fileId)) => Some(SendMedia(kind, chatId, fileId, None, None, s.threadId.value))
    ensures authorized && HasActiveTopic(s) ==>
              r.reply == Some(if r.call.Some? && failure.Some? then Text(PostFailedPrefix + failure.value)
                              else Text(PostedText))
  {
    if !authorized then Relay(None, None)
    else if !HasActiveTopic(s) then Relay(None, Some(Text(NeedTopicText)))
    else
      var call := Forward(Classify(m), chatId, s.threadId.value);
      if call.Some? && failure.Some? then Relay(call, Some(Text(PostFailedPrefix + failure.value)))
      else Relay(call, Some(Text(PostedText)))
  }

  /** Content the relay does not recognise (no text and no media) makes no
      call, yet the sender is still told it was posted. */
  lemma UnsupportedStillPosted(s: Session, chatId: Option<int>, m: Message, failure: Option<string>)
    requires HasActiveTopic(s) && !Config.Truthy(m.text) && FirstMedia(m).None?
    ensures CopyMessageStep(true, s, chatId, m, failure) == Relay(None, Some(Text(PostedText)))
  {
  }

  /** The scenario of an authorized user who runs `/new Project X` and then
      sends a text: the topic is created in the default group, the session
      points at the new thread, and the text is forwarded into it. */
  lemma NewThenRelayText(chatId: Option<int>, template: string, threadId: int, text: string)
    requires threadId != 0 && text != ""
    ensures var created := NewTopicStep(true, NoSession, ["Project", "X"], chatId, Some(template), Success(threadId));
            && created.call == Some(CreateForumTopic(chatId, "Project X"))
            && created.reply == TopicCreated(template, "Project X", threadId)
            && created.session == Session(Some("Project X"), Some(threadId))
            && CopyMessageStep(true, created.session, chatId, Message(0, Some(text), [], None, [], [], None, None), None)
               == Relay(Some(SendMessage(chatId, text, threadId, [])), Some(Text(PostedText)))
  {
    assert ["Project", "X"][1..] == ["X"];
    assert Join(["Project", "X"], " ") == "Project X";
  }

  // ---------------------------------------------------------------------
  // Runs of updates

  /** An update the dispatcher delivers to one of the handlers, with the
      outcome of the outbound call it makes. */
  datatype Update =
    | StartCommand(message: Message)
    | HelpCommand(message: Message)
    | NewCommand(message: Message, args: seq<string>, created: Result<int, string>)
    | Relayed(message: Message, failure: Option<string>)

  /** The session after one update. Only `/new` writes the session. */
  function Step(cfg: Config.Settings, s: Session, u: Update): Session
  {
    match u
    case NewCommand(m, args, created) =>
      NewTopicStep(m.userId in cfg.authorizedUserIds, s, args, cfg.defaultGroupId, cfg.topicCreatedMsg, created).session
    case _ => s
  }

  /** The session after a run of updates, handled one at a time. */
  function Run(cfg: Config.Settings, s: Session, us: seq<Update>): Session
  {
    if us == [] then s else Step(cfg, Run(cfg, s, us[..|us| - 1]), us[|us| - 1])
  }

  /** Reference definition: the session a `/new` installs when the sender is
      authorized, the joined name is non-empty and the topic was created. */
  function Installs(cfg: Config.Settings, u: Update): Option<Session>
  {
    if u.NewCommand? && u.message.userId in cfg.authorizedUserIds && Join(u.args, " ") != "" && u.created.Success?
    then Some(Session(Some(Join(u.args, " ")), Some(u.created.value)))
    else None
  }

  /** The session installed by the last successful `/new` of a run, if any. */
  function LastInstalled(cfg: Config.Settings, us: seq<Update>): Option<Session>
  {
    if us == [] then None
    else if Installs(cfg, us[|us| - 1]).Some? then Installs(cfg, us[|us| - 1])
    else LastInstalled(cfg, us[..|us| - 1])
  }

  /** The state machine: no active topic until a `/new` succeeds; afterwards
      the session is exactly the one the last successful `/new` installed
      (last writer wins, no merge), and nothing else ever changes it. */
  lemma {:induction false} RunIsLastInstalled(cfg: Config.Settings, s: Session, us: seq<Update>)
    ensures Run(cfg, s, us) == match LastInstalled(cfg, us) case None => s case Some(t) => t
  {
    if us != [] {
      RunIsLastInstalled(cfg, s, us[..|us| - 1]);
    }
  }

  /** Updates from senders outside the allow-list never change the session. */
  lemma {:induction false} UnauthorizedRunKeepsSession(cfg: Config.Settings, s: Session, us: seq<Update>)
    requires forall i :: 0 <= i < |us| ==> us[i].message.userId !in cfg.authorizedUserIds
    ensures Run(cfg, s, us) == s
  {
    if us != [] {
      UnauthorizedRunKeepsSession(cfg, s, us[..|us| - 1]);
    }
  }

  /** Once a topic is active it stays active, provided the platform never
      hands back thread id 0 (which the relay reads as "no topic"). */
  lemma {:induction false} ActiveTopicStaysActive(cfg: Config.Settings, s: Session, us: seq<Update>)
    requires HasActiveTopic(s)
    requires forall i :: 0 <= i < |us| && us[i].NewCommand? && us[i].created.Success? ==> us[i].created.value != 0
    ensures HasActiveTopic(Run(cfg, s, us))
  {
    if us != [] {
      ActiveTopicStaysActive(cfg, s, us[..|us| - 1]);
    }
  }

  // ---------------------------------------------------------------------
  // The session object

  class SessionManager {
    var currentTopic: Option<string>
    var currentThreadId: Option<int>

    function State(): Session
      reads this
    {
      Session(currentTopic, currentThreadId)
    }

    constructor ()
      ensures State() == NoSession
    {
      currentTopic := None;
      currentThreadId := None;
    }

    /** `new_session`: both fields are overwritten together, with no merge. */
    method NewSession(topicName: string, threadId: int)
      modifies this
      ensures State() == Session(Some(topicName), Some(threadId))
    {
      currentTopic := Some(topicName);
      currentThreadId := Some(threadId);
    }

    /** `validate_user`: membership in the allow-list; it changes nothing. */
    method ValidateUser(authorizedUserIds: seq<int>, userId: int) returns (ok: bool)
      ensures ok <==> exists i :: 0 <= i < |authorizedUserIds| && authorizedUserIds[i] == userId
    {
      ok := userId in authorizedUserIds;
    }

    method Start(cfg: Config.Settings, m: Message) returns (reply: Option<Reply>)
      ensures reply == WelcomeReply(m.userId in cfg.authorizedUserIds, cfg.welcomeMessage)
    {
      var ok := ValidateUser(cfg.authorizedUserIds, m.userId);
      if !ok {
        return None;
      }
      reply := Some(Welcome(cfg.welcomeMessage));
    }

    method Help(cfg: Config.Settings, m: Message) returns (reply: Option<Reply>)
      ensures reply == WelcomeReply(m.userId in cfg.authorizedUserIds, cfg.welcomeMessage)
    {
      var ok := ValidateUser(cfg.authorizedUserIds, m.userId);
      if !ok {
        return None;
      }
      reply := Some(Welcome(cfg.welcomeMessage));
    }

    /** `new_topic` run against this session; `created` is what
        `create_forum_topic` returns or raises. */
    method NewTopic(cfg: Config.Settings, m: Message, args: seq<string>, created: Result<int, string>)
      returns (call: Option<ApiCall>, reply: Reply)
      modifies this
      ensures NewTopicResult(call, reply, State()) ==
              NewTopicStep(m.userId in cfg.authorizedUserIds, old(State()), args, cfg.defaultGroupId,
                           cfg.topicCreatedMsg, created)
    {
      var ok := ValidateUser(cfg.authorizedUserIds, m.userId);
      if !ok {
        return None, Text(UnauthorizedText);
      }
      var topicName := if args != [] then Some(Join(args, " ")) else None;
      if topicName.None? || topicName.value == "" {
        return None, Text(UsageText);
      }
      call := Some(CreateForumTopic(cfg.defaultGroupId, topicName.value));
      if created.Failure? {
        return call, Text(TopicFailedText);
      }
      NewSession(topicName.value, created.value);
      if cfg.topicCreatedMsg.None? {
        return call, Text(TopicFailedText);
      }
      reply := TopicCreated(cfg.topicCreatedMsg.value, topicName.value, created.value);
    }

    /** `copy_message` run against this session, which it only reads;
        `failure` is the error the outbound call raises, if any. */
    method CopyMessage(cfg: Config.Settings, m: Message, failure: Option<string>)
      returns (call: Option<ApiCall>, reply: Option<Reply>)
      ensures Relay(call, reply) ==
              CopyMessageStep(m.userId in cfg.authorizedUserIds, State(), cfg.defaultGroupId, m, failure)
    {
      var ok := ValidateUser(cfg.authorizedUserIds, m.userId);
      if !ok {
        return None, None;
      }
      if currentThreadId.None? || currentThreadId.value == 0 {
        return None, Some(Text(NeedTopicText));
      }
      var thread := currentThreadId.value;
      var chat := cfg.defaultGroupId;
      call := None;
      if m.text.Some? && m.text.value != "" {
        call := Some(SendMessage(chat, m.text.value, thread, m.entities));
      } else if m.caption.Some? && m.caption.value != "" {
        if m.photo != [] {
          call := Some(SendMedia(Photo, chat, m.photo[|m.photo| - 1].fileId, m.caption, Some(m.captionEntities), thread));
        } else if m.video.Some? {
          call := Some(SendMedia(Video, chat, m.video.value.fileId, m.caption, Some(m.captionEntities), thread));
        } else if m.document.Some? {
          call := Some(SendMedia(Document, chat, m.document.value.fileId, m.caption, Some(m.captionEntities), thread));
        }
      } else {
        if m.photo != [] {
          call := Some(SendMedia(Photo, chat, m.photo[|m.photo| - 1].fileId, None, None, thread));
        } else if m.video.Some? {
          call := Some(SendMedia(Video, chat, m.video.value.fileId, None, None, thread));
        } else if m.document.Some? {
          call := Some(SendMedia(Document, chat, m.document.value.fileId, None, None, thread));
        }
      }
      if call.Some? && failure.Some? {
        return call, Some(Text(PostFailedPrefix + failure.value));
      }
      reply := Some(Text(PostedText));
    }
  }
}
