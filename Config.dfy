/** The bot's settings, read once from environment variables. Each variable
    is an input string (`None` when it is unset); the Python class body is a
    sequence of parsers over those strings, and `Validate` is the start-up
    guard chain. */
module Config {
  import opened Wrappers
  import opened PyStr

  /** The environment variables the settings are read from. */
  datatype Env = Env(
    telegramBotToken: Option<string>,
    authorizedUserIds: Option<string>,
    groupsConfig: Option<string>,
    logLevel: Option<string>,
    sessionTimeout: Option<string>,
    welcomeMessage: Option<string>,
    topicCreatedMsg: Option<string>)

  /** `os.getenv(name, default)`. */
  function EnvOr(v: Option<string>, default: string): (r: string)
    ensures v.Some? ==> r == v.value
    ensures v.None? ==> r == default
  {
    match v
    case Some(s) => s
    case None => default
  }

  /** The entries a comprehension keeps, in input order. */
  function Filter(entries: seq<string>, keep: string -> bool): (r: seq<string>)
    ensures |r| <= |entries|
    ensures forall k :: 0 <= k < |r| ==> keep(r[k]) && r[k] in entries
    ensures forall i :: 0 <= i < |entries| && keep(entries[i]) ==> entries[i] in r
  {
    if entries == [] then []
    else if keep(entries[0]) then [entries[0]] + Filter(entries[1..], keep)
    else Filter(entries[1..], keep)
  }

  /** Filtering keeps the order of the input: it distributes over `+`. */
  lemma {:induction false} FilterAppend(a: seq<string>, b: seq<string>, keep: string -> bool)
    ensures Filter(a + b, keep) == Filter(a, keep) + Filter(b, keep)
  {
    if a == [] {
      assert a + b == b;
    } else {
      assert (a + b)[1..] == a[1..] + b;
      FilterAppend(a[1..], b, keep);
    }
  }

  /** A filtered list comprehension whose conversion may raise (`None`):
      either every kept entry converts, and the result is their conversions in
      input order, or the whole comprehension fails and no partial list is
      produced. */
  function Comprehend<T>(entries: seq<string>, keep: string -> bool, conv: string -> Option<T>): (r: Option<seq<T>>)
    ensures r.Some? <==> forall i :: 0 <= i < |entries| && keep(entries[i]) ==> conv(entries[i]).Some?
    ensures r.Some? ==> |r.value| == |Filter(entries, keep)|
    ensures r.Some? ==> forall k :: 0 <= k < |r.value| ==> conv(Filter(entries, keep)[k]) == Some(r.value[k])
  {
    if entries == [] then Some([])
    else
      var rest := Comprehend(entries[1..], keep, conv);
      assert forall i :: 1 <= i < |entries| ==> entries[i] == entries[1..][i - 1];
      if !keep(entries[0]) then rest
      else match conv(entries[0])
        case None => None
        case Some(x) =>
          if rest.None? then None
          else
            var r := [x] + rest.value;
            assert forall k :: 1 <= k < |r| ==> r[k] == rest.value[k - 1];
            Some(r)
  }

  // ---------------------------------------------------------------------
  // AUTHORIZED_USER_IDS

  /** An entry is kept when something other than whitespace is left after stripping it. */
  predicate NonBlank(entry: string)
  {
    Strip(entry) != ""
  }

  /** The allow-list: AUTHORIZED_USER_IDS (empty when unset) split at commas,
      blank entries dropped, every other entry read as an integer; `None`
      when some non-blank entry is not an integer. */
  function AuthorizedUserIds(raw: Option<string>): (r: Option<seq<int>>)
    ensures EnvOr(raw, "") == "" ==> r == Some([])
  {
    var entries := Split(EnvOr(raw, ""), ',');
    assert EnvOr(raw, "") == "" ==> entries == [""] by {
      if EnvOr(raw, "") == "" { SplitNoSeparator("", ','); }
    }
    Comprehend(entries, NonBlank, ParseInt)
  }

  /** One entry that is not an integer fails the whole list. */
  lemma AuthorizedUserIdsRejectWhole()
    ensures AuthorizedUserIds(Some("12,x")).None?
  {
    assert Split("12,x", ',') == ["12", "x"] by {
      SplitJoin(["12", "x"], ',');
      assert Join(["12", "x"], [',']) == "12,x";
    }
    assert NonBlank("x") && ParseInt("x").None? by {
      StripUnpadded("x", StrWhitespace);
      StripUnpadded("x", IntWhitespace);
    }
  }

  /** An entry that `strip()` keeps but `int()` rejects: U+001C is whitespace
      to `strip()`, not to `int()`, so `"\U{1C}5"` fails the whole list. */
  lemma AuthorizedUserIdsRejectSeparator()
    ensures AuthorizedUserIds(Some("\U{1C}5")).None?
  {
    assert Split("\U{1C}5", ',') == ["\U{1C}5"] by {
      SplitNoSeparator("\U{1C}5", ',');
    }
    SeparatorNotIntWhitespace();
  }

  // ---------------------------------------------------------------------
  // GROUPS_CONFIG

  /** Whether an entry contains a colon. */
  predicate HasColon(group: string)
  {
    ':' in group
  }

  /** One group entry as a key and a label: the key is the integer before the
      first `:`, the label the text between the first and the second `:`;
      `None` when the key is not an integer (or there is no second segment,
      an `IndexError`). */
  function GroupEntry(group: string): (r: Option<(int, string)>)
    ensures r.Some? ==> HasColon(group) && ':' !in r.value.1
  {
    var parts := Split(group, ':');
    if |parts| < 2 then None
    else match ParseInt(parts[0])
      case None => None
      case Some(id) =>
        assert parts[1] in parts;
        assert group[|parts[0]|] == ':' by {
          JoinSplit(group, ':');
          assert Join(parts, [':']) == parts[0] + [':'] + Join(parts[1..], [':']);
        }
        Some((id, parts[1]))
  }

  /** If `i` is the first `:` of an entry and `j` the next one (or the end),
      the key is the integer before `i` and the label is the text strictly
      between `i` and `j`: the second segment, not the rest of the entry. */
  lemma GroupEntryFields(group: string, i: nat, j: nat)
    requires i < j <= |group| && group[i] == ':'
    requires ':' !in group[..i] && ':' !in group[i + 1..j]
    requires j == |group| || group[j] == ':'
    ensures GroupEntry(group).Some? <==> ParseInt(group[..i]).Some?
    ensures GroupEntry(group).Some? ==> GroupEntry(group).value == (ParseInt(group[..i]).value, group[i + 1..j])
  {
    SplitFirstTwo(group, ':', i, j);
  }

  /** `"1:a:b"` is group 1 labelled `"a"`: the label stops at the second `:`. */
  lemma GroupEntrySecondSegment()
    ensures GroupEntry("1:a:b") == Some((1, "a"))
  {
    GroupEntryFields("1:a:b", 1, 3);
    assert "1:a:b"[..1] == "1" && "1:a:b"[2..3] == "a";
    ParseDigit('1');
  }

  /** `"7:"` is group 7 with an empty label. */
  lemma GroupEntryEmptyLabel()
    ensures GroupEntry("7:") == Some((7, ""))
  {
    GroupEntryFields("7:", 1, 2);
    assert "7:"[..1] == "7" && "7:"[2..2] == "";
    ParseDigit('7');
  }

  /** Python's insertion-ordered `dict` from group id to label: `order` holds
      each key once, in first-insertion order. */
  datatype GroupMap = GroupMap(order: seq<int>, labels: map<int, string>)
  {
    ghost predicate Valid()
    {
      && (forall i, j :: 0 <= i < j < |order| ==> order[i] != order[j])
      && (forall id :: id in labels <==> id in order)
    }

    /** `id in d and d[id]`, as an option. */
    function Get(id: int): Option<string>
    {
      if id in labels then Some(labels[id]) else None
    }
  }

  const EmptyGroups := GroupMap([], map[])

  /** `d[id] = title`: a new key goes to the end; an existing key keeps its
      place and takes the new label. */
  function Put(d: GroupMap, id: int, title: string): (r: GroupMap)
    requires d.Valid()
    ensures r.Valid()
    ensures r.labels == d.labels[id := title]
    ensures id in d.labels ==> r.order == d.order
    ensures id !in d.labels ==> r.order == d.order + [id]
  {
    if id in d.labels then GroupMap(d.order, d.labels[id := title])
    else GroupMap(d.order + [id], d.labels[id := title])
  }

  /** The dict built by inserting the pairs one after the other. */
  function Dict(pairs: seq<(int, string)>): (d: GroupMap)
    ensures d.Valid()
  {
    if pairs == [] then EmptyGroups
    else Put(Dict(pairs[..|pairs| - 1]), pairs[|pairs| - 1].0, pairs[|pairs| - 1].1)
  }

  /** Reference definitions for the dict: where a key first appears among the
      pairs (`|pairs|` when it does not), and the label given to it last. */
  function FirstIndex(pairs: seq<(int, string)>, id: int): (n: nat)
    ensures n <= |pairs|
    ensures n < |pairs| ==> pairs[n].0 == id
    ensures forall i :: 0 <= i < n ==> pairs[i].0 != id
  {
    if pairs == [] then 0
    else if pairs[0].0 == id then 0
    else 1 + FirstIndex(pairs[1..], id)
  }

  function LastLabel(pairs: seq<(int, string)>, id: int): (r: Option<string>)
    ensures r.None? <==> forall i :: 0 <= i < |pairs| ==> pairs[i].0 != id
  {
    if pairs == [] then None
    else if pairs[|pairs| - 1].0 == id then Some(pairs[|pairs| - 1].1)
    else
      assert forall i :: 0 <= i < |pairs| - 1 ==> pairs[i] == pairs[..|pairs| - 1][i];
      LastLabel(pairs[..|pairs| - 1], id)
  }

  /** The label `LastLabel` finds belongs to the last pair with that key. */
  lemma {:induction false} LastLabelAt(pairs: seq<(int, string)>, id: int) returns (i: nat)
    requires LastLabel(pairs, id).Some?
    ensures i < |pairs| && pairs[i] == (id, LastLabel(pairs, id).value)
    ensures forall j :: i < j < |pairs| ==> pairs[j].0 != id
  {
    if pairs[|pairs| - 1].0 == id {
      i := |pairs| - 1;
    } else {
      i := LastLabelAt(pairs[..|pairs| - 1], id);
    }
  }

  lemma FirstIndexExtend(pairs: seq<(int, string)>, p: (int, string), id: int)
    ensures FirstIndex(pairs + [p], id) ==
            if FirstIndex(pairs, id) < |pairs| then FirstIndex(pairs, id)
            else if p.0 == id then |pairs| else |pairs| + 1
  {
    var n := FirstIndex(pairs + [p], id);
    var m := FirstIndex(pairs, id);
    assert forall i :: 0 <= i < |pairs| ==> (pairs + [p])[i] == pairs[i];
    if m < |pairs| {
      assert (pairs + [p])[m].0 == id;
    } else if p.0 == id {
      assert (pairs + [p])[|pairs|].0 == id;
    }
  }

  /** Dict-comprehension semantics, stated against the reference definitions:
      the label of a key is the one given to it last, so a later duplicate
      wins; a key is absent iff no pair has it. */
  lemma {:induction false} DictLabels(pairs: seq<(int, string)>)
    ensures forall id :: Dict(pairs).Get(id) == LastLabel(pairs, id)
  {
    if pairs != [] {
      var init, p := pairs[..|pairs| - 1], pairs[|pairs| - 1];
      DictLabels(init);
      forall id ensures Dict(pairs).Get(id) == LastLabel(pairs, id) {
        if id != p.0 {
          assert LastLabel(pairs, id) == LastLabel(init, id);
          assert Dict(init).Get(id) == Dict(pairs).Get(id);
        }
      }
    }
  }

  /** A key is in the dict iff it appears among the pairs. */
  lemma {:induction false} DictKeys(pairs: seq<(int, string)>)
    ensures forall id :: id in Dict(pairs).labels <==> FirstIndex(pairs, id) < |pairs|
  {
    if pairs != [] {
      var init, p := pairs[..|pairs| - 1], pairs[|pairs| - 1];
      assert pairs == init + [p];
      DictKeys(init);
      forall id ensures id in Dict(pairs).labels <==> FirstIndex(pairs, id) < |pairs| {
        FirstIndexExtend(init, p, id);
      }
    }
  }

  /** The keys are ordered by where they first appear among the pairs: a
      duplicate keeps its first-insertion position. */
  lemma {:induction false} DictOrder(pairs: seq<(int, string)>)
    ensures forall i, j :: 0 <= i < j < |Dict(pairs).order| ==>
              FirstIndex(pairs, Dict(pairs).order[i]) < FirstIndex(pairs, Dict(pairs).order[j])
  {
    if pairs != [] {
      var init, p := pairs[..|pairs| - 1], pairs[|pairs| - 1];
      assert pairs == init + [p];
      DictOrder(init);
      DictKeys(init);
      var d0, d := Dict(init), Dict(pairs);
      forall i, j | 0 <= i < j < |d.order|
        ensures FirstIndex(pairs, d.order[i]) < FirstIndex(pairs, d.order[j])
      {
        FirstIndexExtend(init, p, d.order[i]);
        FirstIndexExtend(init, p, d.order[j]);
        assert d.order[i] == d0.order[i] && d.order[i] in d0.labels;
        if j < |d0.order| {
          assert d.order[j] == d0.order[j] && d.order[j] in d0.labels;
        } else {
          assert d.order[j] == p.0 && p.0 !in d0.labels;
        }
      }
    }
  }

  /** The `(id, label)` pairs of the kept entries of GROUPS_CONFIG, in order. */
  function GroupPairs(raw: Option<string>): Option<seq<(int, string)>>
  {
    Comprehend(Split(EnvOr(raw, ""), ','), HasColon, GroupEntry)
  }

  /** The group map: GROUPS_CONFIG (empty when unset) split at commas, the
      entries with a `:` parsed by `GroupEntry` and inserted in order into a
      dict; `None` when one of those entries fails to parse. */
  function Groups(raw: Option<string>): (r: Option<GroupMap>)
    ensures r.Some? <==> GroupPairs(raw).Some?
    ensures r.Some? ==> r.value.Valid()
    ensures EnvOr(raw, "") == "" ==> r == Some(EmptyGroups)
  {
    assert EnvOr(raw, "") == "" ==> Split(EnvOr(raw, ""), ',') == [""] by {
      if EnvOr(raw, "") == "" { SplitNoSeparator("", ','); }
    }
    match GroupPairs(raw)
    case None => None
    case Some(pairs) => Some(Dict(pairs))
  }

  /** An entry without `:` is skipped: appending one changes nothing. */
  lemma SkipEntryWithoutColon(raw: string, entry: string)
    requires ',' !in entry && ':' !in entry
    ensures Groups(Some(raw + "," + entry)) == Groups(Some(raw))
  {
    var parts := Split(raw, ',');
    JoinSplit(raw, ',');
    SplitJoin(parts + [entry], ',');
    assert Join(parts + [entry], [',']) == raw + "," + entry by {
      JoinSnoc(parts, entry, [',']);
    }
    FilterAppend(parts, [entry], HasColon);
    assert Filter([entry], HasColon) == [];
    ComprehendSkip(parts, entry, HasColon, GroupEntry);
  }

  lemma {:induction false} ComprehendSkip<T>(entries: seq<string>, e: string, keep: string -> bool, conv: string -> Option<T>)
    requires !keep(e)
    ensures Comprehend(entries + [e], keep, conv) == Comprehend(entries, keep, conv)
  {
    if entries == [] {
      assert [] + [e] == [e];
    } else {
      assert (entries + [e])[1..] == entries[1..] + [e];
      ComprehendSkip(entries[1..], e, keep, conv);
    }
  }

  /** `"1:a,2:b,1:c"`: group 1 keeps its first position and takes the label `"c"`. */
  lemma DictDuplicateKey()
    ensures Dict([(1, "a"), (2, "b"), (1, "c")]) == GroupMap([1, 2], map[1 := "c", 2 := "b"])
  {
    var pairs: seq<(int, string)> := [(1, "a"), (2, "b"), (1, "c")];
    assert pairs[..2] == [(1, "a"), (2, "b")] && pairs[..2][..1] == [(1, "a")] && |pairs[..1][..0]| == 0;
    assert Dict(pairs[..1]) == GroupMap([1], map[1 := "a"]);
    assert Dict(pairs[..2]) == GroupMap([1, 2], map[1 := "a", 2 := "b"]);
    assert map[1 := "a", 2 := "b"][1 := "c"] == map[1 := "c", 2 := "b"];
  }

  /** The default group: the first key of the group map, or `None` when the
      map is empty. */
  function DefaultGroupId(groups: GroupMap): (r: Option<int>)
    requires groups.Valid()
    ensures r.None? <==> groups.labels == map[]
    ensures r.Some? ==> groups.order != [] && r.value == groups.order[0] && r.value in groups.labels
  {
    if groups.order == [] then
      assert forall id :: id !in groups.labels;
      None
    else
      assert groups.order[0] in groups.order;
      Some(groups.order[0])
  }

  // ---------------------------------------------------------------------
  // The remaining settings and the settings record

  const LogFormat := "%(asctime)s - %(name)s - %(levelname)s - %(message)s"

  /** The default text of SESSION_TIMEOUT reads as 3600. */
  lemma DefaultTimeoutText()
    ensures ParseInt("3600") == Some(3600)
  {
    assert DigitsValue("3600") == 3600 by {
      assert "3600"[..3] == "360" && "360"[..2] == "36" && "36"[..1] == "3" && "3"[..0] == [];
    }
    ParseDecimal("3600");
  }

  /** The session timeout: SESSION_TIMEOUT read as an integer, with the text
      `"3600"` when it is unset; `None` when it is not an integer. */
  function SessionTimeout(raw: Option<string>): (r: Option<int>)
    ensures raw.None? ==> r == Some(3600)
  {
    DefaultTimeoutText();
    ParseInt(EnvOr(raw, "3600"))
  }

  datatype Settings = Settings(
    token: Option<string>,
    authorizedUserIds: seq<int>,
    groups: GroupMap,
    defaultGroupId: Option<int>,
    logLevel: string,
    logFormat: string,
    sessionTimeout: int,
    welcomeMessage: Option<string>,
    topicCreatedMsg: Option<string>)

  /** The `int(...)` conversion that raised while the class body ran. */
  datatype LoadError = BadAuthorizedUserIds | BadGroupsConfig | BadSessionTimeout

  /** The class body of `Config`, attribute by attribute in source order: the
      first conversion that raises is the error. */
  function Load(env: Env): (r: Result<Settings, LoadError>)
    ensures r.Success? <==> AuthorizedUserIds(env.authorizedUserIds).Some? && Groups(env.groupsConfig).Some?
                            && SessionTimeout(env.sessionTimeout).Some?
    ensures r == Failure(BadAuthorizedUserIds) <==> AuthorizedUserIds(env.authorizedUserIds).None?
    ensures r == Failure(BadGroupsConfig) <==> AuthorizedUserIds(env.authorizedUserIds).Some? && Groups(env.groupsConfig).None?
    ensures r.Success? ==> var s := r.value;
              && s.groups.Valid()
              && Some(s.authorizedUserIds) == AuthorizedUserIds(env.authorizedUserIds)
              && Some(s.groups) == Groups(env.groupsConfig)
              && (s.defaultGroupId.None? <==> s.groups.labels == map[])
              && (s.defaultGroupId.Some? ==> s.defaultGroupId.value == s.groups.order[0])
              && s.token == env.telegramBotToken
              && s.logLevel == EnvOr(env.logLevel, "INFO")
              && Some(s.sessionTimeout) == SessionTimeout(env.sessionTimeout)
              && s.logFormat == LogFormat
              && s.welcomeMessage == env.welcomeMessage
              && s.topicCreatedMsg == env.topicCreatedMsg
  {
    match AuthorizedUserIds(env.authorizedUserIds)
    case None => Failure(BadAuthorizedUserIds)
    case Some(ids) =>
      match Groups(env.groupsConfig)
      case None => Failure(BadGroupsConfig)
      case Some(groups) =>
        match SessionTimeout(env.sessionTimeout)
        case None => Failure(BadSessionTimeout)
        case Some(timeout) =>
          Success(Settings(env.telegramBotToken, ids, groups, DefaultGroupId(groups),
                           EnvOr(env.logLevel, "INFO"), LogFormat, timeout,
                           env.welcomeMessage, env.topicCreatedMsg))
  }

  /** The `ValueError` raised by `Config.validate`. */
  datatype ConfigError = TokenRequired | AuthorizedUserRequired | GroupRequired
  {
    function Message(): string
    {
      match this
      case TokenRequired => "TELEGRAM_BOT_TOKEN is required"
      case AuthorizedUserRequired => "At least one AUTHORIZED_USER_ID is required"
      case GroupRequired => "At least one GROUP_CONFIG is required"
    }
  }

  /** Python truthiness of an optional string. */
  predicate Truthy(s: Option<string>)
  {
    s.Some? && s.value != ""
  }

  /** `Config.validate()`: `None` when it returns, otherwise the first failing
      check, in the order token, authorized users, groups. */
  function Validate(s: Settings): (r: Option<ConfigError>)
    ensures r.None? <==> Truthy(s.token) && s.authorizedUserIds != [] && s.groups.labels != map[]
    ensures r == Some(TokenRequired) <==> !Truthy(s.token)
    ensures r == Some(AuthorizedUserRequired) <==> Truthy(s.token) && s.authorizedUserIds == []
    ensures r == Some(GroupRequired) <==> Truthy(s.token) && s.authorizedUserIds != [] && s.groups.labels == map[]
  {
    if !Truthy(s.token) then Some(TokenRequired)
    else if s.authorizedUserIds == [] then Some(AuthorizedUserRequired)
    else if s.groups.labels == map[] then Some(GroupRequired)
    else None
  }

  /** With a token set but AUTHORIZED_USER_IDS unset, loading succeeds (so long
      as the other variables parse) but start-up validation refuses. */
  lemma MissingUsersFailValidation(env: Env)
    requires Truthy(env.telegramBotToken) && env.authorizedUserIds.None?
    requires Load(env).Success?
    ensures Validate(Load(env).value) == Some(AuthorizedUserRequired)
    ensures Validate(Load(env).value).value.Message() == "At least one AUTHORIZED_USER_ID is required"
  {
  }

  /** The text of the raised `ValueError` tells which check failed: the three
      messages are pairwise different. */
  lemma ErrorMessagesDistinct(e1: ConfigError, e2: ConfigError)
    ensures e1.Message() == e2.Message() <==> e1 == e2
  {
    assert "TELEGRAM_BOT_TOKEN is required"[0] != "At least one AUTHORIZED_USER_ID is required"[0];
    assert "TELEGRAM_BOT_TOKEN is required"[0] != "At least one GROUP_CONFIG is required"[0];
    assert "At least one AUTHORIZED_USER_ID is required"[13] != "At least one GROUP_CONFIG is required"[13];
  }
}
