// Which version of each answer a conversation shows
// (src/lib/chat-version-reconciliation.ts).
module Reconciliation {
  import opened Options
  import opened Sequences

  datatype Role = User | Assistant

  datatype MessageStatus = Streaming | Failed | Incomplete | Completed

  // A message object: ref is its identity, the rest is what is looked at.
  datatype Message = Message(
    ref: nat,
    role: Role,
    turnId: Option<string>,
    answerVersion: Option<int>,
    status: Option<MessageStatus>,
    hasAnswerV3: bool,
    hasAnswer: bool,
    answerBlocks: nat,
    content: string)

  function VersionedTurnId(m: Message): Option<string> {
    if m.role == Assistant && m.turnId.Some? && m.turnId.value != "" && m.answerVersion.Some? then m.turnId else None
  }

  function StatusScore(status: Option<MessageStatus>): nat {
    if status.None? then 0
    else match status.value
      case Streaming => 0
      case Failed => 1
      case Incomplete => 2
      case Completed => 3
  }

  function AnswerScore(m: Message): nat {
    if m.hasAnswerV3 then 4
    else if m.hasAnswer then 3
    else if m.answerBlocks > 0 then 2
    else if m.content != "" then 1
    else 0
  }

  function Quality(m: Message): nat {
    StatusScore(m.status) * 10 + AnswerScore(m)
  }

  // Completed before incomplete before failed before streaming, and no status is like streaming.
  ghost predicate HasHigherStatus(a: Option<MessageStatus>, b: Option<MessageStatus>) {
    || (a == Some(Completed) && b != Some(Completed))
    || (a == Some(Incomplete) && b in {Some(Failed), Some(Streaming), None})
    || (a == Some(Failed) && b in {Some(Streaming), None})
  }

  ghost predicate HaveSameStatus(a: Option<MessageStatus>, b: Option<MessageStatus>) {
    a == b || (a in {Some(Streaming), None} && b in {Some(Streaming), None})
  }

  // A third-version answer, else an answer, else answer blocks, else any content.
  ghost predicate CarriesMore(m: Message, n: Message) {
    || (m.hasAnswerV3 && !n.hasAnswerV3)
    || (m.hasAnswer && !n.hasAnswerV3 && !n.hasAnswer)
    || (m.answerBlocks > 0 && !n.hasAnswerV3 && !n.hasAnswer && n.answerBlocks == 0)
    || (m.content != "" && !n.hasAnswerV3 && !n.hasAnswer && n.answerBlocks == 0 && n.content == "")
  }

  // Status decides first; what the message carries only breaks ties.
  lemma StatusComesFirst(m: Message, n: Message)
    ensures Quality(m) > Quality(n) <==>
      HasHigherStatus(m.status, n.status) || (HaveSameStatus(m.status, n.status) && CarriesMore(m, n))
  {
    assert AnswerScore(m) < 10 && AnswerScore(n) < 10;
    assert StatusScore(m.status) > StatusScore(n.status) <==> HasHigherStatus(m.status, n.status);
    assert StatusScore(m.status) == StatusScore(n.status) <==> HaveSameStatus(m.status, n.status);
    assert AnswerScore(m) > AnswerScore(n) <==> CarriesMore(m, n);
  }

  // ----- the candidates of a turn

  function OfTurn(turn: string): Message -> bool {
    m => VersionedTurnId(m) == Some(turn)
  }

  function Candidates(messages: seq<Message>, turn: string): seq<Message> {
    Filter(messages, OfTurn(turn))
  }

  // The versions of a turn are the assistant's messages that carry its id and a version number.
  lemma CandidatesAre(messages: seq<Message>, turn: string, m: Message)
    ensures m in Candidates(messages, turn) <==>
      && m in messages && m.role == Assistant && turn != ""
      && m.turnId == Some(turn) && m.answerVersion.Some?
  {
    FilterIsExact(messages, OfTurn(turn));
  }

  function Versions(candidates: seq<Message>): set<int> {
    set i | 0 <= i < |candidates| && candidates[i].answerVersion.Some? :: candidates[i].answerVersion.value
  }

  // The message that stands for a version: the first one of the best quality.
  ghost predicate IsCanonical(candidates: seq<Message>, version: int, i: nat) {
    && i < |candidates| && candidates[i].answerVersion == Some(version)
    && (forall k | 0 <= k < |candidates| && candidates[k].answerVersion == Some(version) ::
          Quality(candidates[k]) <= Quality(candidates[i]))
    && (forall k | 0 <= k < i && candidates[k].answerVersion == Some(version) ::
          Quality(candidates[k]) < Quality(candidates[i]))
  }

  ghost predicate Canonical(candidates: seq<Message>, version: int, m: Message) {
    exists i: nat :: IsCanonical(candidates, version, i) && candidates[i] == m
  }

  lemma CanonicalIsUnique(candidates: seq<Message>, version: int, m: Message, n: Message)
    requires Canonical(candidates, version, m) && Canonical(candidates, version, n)
    ensures m == n
  {
    var i: nat :| IsCanonical(candidates, version, i) && candidates[i] == m;
    var j: nat :| IsCanonical(candidates, version, j) && candidates[j] == n;
  }

  // One message for every version there is.
  ghost predicate IsCanonicalMap(candidates: seq<Message>, canonical: map<int, Message>) {
    && canonical.Keys == Versions(candidates)
    && forall version | version in canonical :: Canonical(candidates, version, canonical[version])
  }

  // A candidate of another version, or one that is no better, changes nothing.
  lemma CanonicalStays(candidates: seq<Message>, k: nat, version: int, m: Message)
    requires k < |candidates| && Canonical(candidates[..k], version, m)
    requires candidates[k].answerVersion != Some(version) || Quality(candidates[k]) <= Quality(m)
    ensures Canonical(candidates[..k + 1], version, m)
  {
    var i: nat :| IsCanonical(candidates[..k], version, i) && candidates[..k][i] == m;
    assert IsCanonical(candidates[..k + 1], version, i);
  }

  lemma BetterThanAll(candidates: seq<Message>, k: nat, version: int)
    requires k < |candidates|
    requires forall m | Canonical(candidates[..k], version, m) :: Quality(candidates[k]) > Quality(m)
    requires exists m :: Canonical(candidates[..k], version, m)
    ensures forall j | 0 <= j < k && candidates[j].answerVersion == Some(version) ::
              Quality(candidates[j]) < Quality(candidates[k])
  {
    var m :| Canonical(candidates[..k], version, m);
    var i: nat :| IsCanonical(candidates[..k], version, i) && candidates[..k][i] == m;
    forall j | 0 <= j < k && candidates[j].answerVersion == Some(version)
      ensures Quality(candidates[j]) < Quality(candidates[k])
    {
      assert candidates[..k][j] == candidates[j];
    }
  }

  // A first or better candidate takes over.
  lemma CanonicalIsReplaced(candidates: seq<Message>, k: nat, version: int)
    requires k < |candidates| && candidates[k].answerVersion == Some(version)
    requires forall m | Canonical(candidates[..k], version, m) :: Quality(candidates[k]) > Quality(m)
    requires version in Versions(candidates[..k]) ==> exists m :: Canonical(candidates[..k], version, m)
    ensures Canonical(candidates[..k + 1], version, candidates[k])
  {
    hide Quality;
    if version in Versions(candidates[..k]) {
      BetterThanAll(candidates, k, version);
    } else {
      forall j | 0 <= j < k ensures candidates[j].answerVersion != Some(version) {
        assert candidates[..k][j] == candidates[j];
      }
    }
    assert IsCanonical(candidates[..k + 1], version, k);
  }

  lemma NextCandidate(candidates: seq<Message>, k: nat, canonical: map<int, Message>)
    requires k < |candidates| && candidates[k].answerVersion.Some?
    requires IsCanonicalMap(candidates[..k], canonical)
    ensures var m := candidates[k];
            var v := m.answerVersion.value;
            IsCanonicalMap(candidates[..k + 1],
              if v !in canonical || Quality(m) > Quality(canonical[v]) then canonical[v := m] else canonical)
  {
    var v := candidates[k].answerVersion.value;
    NextVersions(candidates, k);
    forall version | version in canonical && (version != v || Quality(candidates[k]) <= Quality(canonical[v]))
      ensures Canonical(candidates[..k + 1], version, canonical[version])
    {
      CanonicalStays(candidates, k, version, canonical[version]);
    }
    if v !in canonical || Quality(candidates[k]) > Quality(canonical[v]) {
      forall m | Canonical(candidates[..k], v, m) ensures Quality(candidates[k]) > Quality(m) {
        CanonicalHasVersion(candidates[..k], v, m);
        CanonicalIsUnique(candidates[..k], v, m, canonical[v]);
      }
      CanonicalIsReplaced(candidates, k, v);
    }
  }

  lemma CanonicalHasVersion(candidates: seq<Message>, version: int, m: Message)
    requires Canonical(candidates, version, m)
    ensures version in Versions(candidates) && m in candidates
  {
    var i: nat :| IsCanonical(candidates, version, i) && candidates[i] == m;
  }

  lemma NextVersions(candidates: seq<Message>, k: nat)
    requires k < |candidates|
    ensures Versions(candidates[..k + 1])
         == Versions(candidates[..k])
            + if candidates[k].answerVersion.Some? then {candidates[k].answerVersion.value} else {}
  {
    var more := candidates[..k + 1];
    forall v | v in Versions(candidates[..k]) ensures v in Versions(more) {
      var i :| 0 <= i < k && candidates[..k][i].answerVersion == Some(v);
      assert more[i].answerVersion == Some(v);
    }
    forall v | v in Versions(more)
      ensures v in Versions(candidates[..k]) || candidates[k].answerVersion == Some(v)
    {
      var i :| 0 <= i < |more| && more[i].answerVersion == Some(v);
      if i < k {
        assert candidates[..k][i].answerVersion == Some(v);
      }
    }
    if candidates[k].answerVersion.Some? {
      assert more[k].answerVersion.Some?;
    }
  }

  // The map, and its keys in the order in which they were first set.
  method CanonicalByVersion(candidates: seq<Message>) returns (canonical: map<int, Message>, keys: seq<int>)
    ensures IsCanonicalMap(candidates, canonical)
    ensures Distinct(keys) && forall v :: v in keys <==> v in canonical
  {
    canonical, keys := map[], [];
    for k := 0 to |candidates|
      invariant IsCanonicalMap(candidates[..k], canonical)
      invariant Distinct(keys) && forall v :: v in keys <==> v in canonical
    {
      var candidate := candidates[k];
      if candidate.answerVersion.None? {
        NextVersions(candidates, k);
        forall v | v in canonical ensures Canonical(candidates[..k + 1], v, canonical[v]) {
          CanonicalStays(candidates, k, v, canonical[v]);
        }
        continue;
      }
      NextCandidate(candidates, k, canonical);
      var version := candidate.answerVersion.value;
      if version !in canonical {
        keys := keys + [version];
      }
      if version !in canonical || Quality(candidate) > Quality(canonical[version]) {
        canonical := canonical[version := candidate];
      }
    }
    assert candidates[..|candidates|] == candidates;
  }

  // ----- versions in order

  ghost predicate Ascending(versions: seq<int>) {
    forall i, j | 0 <= i < j < |versions| :: versions[i] < versions[j]
  }

  ghost predicate Lists(versions: seq<int>, all: set<int>) {
    Ascending(versions) && (forall v | v in versions :: v in all) && (forall v | v in all :: v in versions)
  }

  function Inserted(versions: seq<int>, v: int): seq<int> {
    if versions == [] || versions[|versions| - 1] < v then versions + [v]
    else Inserted(versions[..|versions| - 1], v) + [versions[|versions| - 1]]
  }

  lemma AppendHighest(versions: seq<int>, v: int)
    requires Ascending(versions) && forall u | u in versions :: u < v
    ensures Ascending(versions + [v])
    ensures forall u :: u in versions + [v] <==> u in versions || u == v
  {
    forall i | 0 <= i < |versions| ensures versions[i] < v {
      assert versions[i] in versions;
    }
  }

  lemma LastOfAscending(versions: seq<int>)
    requires versions != [] && Ascending(versions)
    ensures var init, last := versions[..|versions| - 1], versions[|versions| - 1];
            && Ascending(init) && versions == init + [last]
            && (forall u | u in init :: u < last) && forall u :: u in versions <==> u in init || u == last
  {
    var init := versions[..|versions| - 1];
    forall u | u in init ensures u < versions[|versions| - 1] {
      var i :| 0 <= i < |init| && init[i] == u;
    }
    assert versions == init + [versions[|versions| - 1]];
  }

  lemma {:induction false} InsertedKeepsOrder(versions: seq<int>, v: int)
    requires Ascending(versions) && v !in versions
    ensures Ascending(Inserted(versions, v))
    ensures forall u :: u in Inserted(versions, v) <==> u in versions || u == v
  {
    hide Ascending;
    if versions == [] {
      OneIsAscending(v);
    } else {
      LastOfAscending(versions);
      var init, last := versions[..|versions| - 1], versions[|versions| - 1];
      if last > v {
        InsertedKeepsOrder(init, v);
        AppendHighest(Inserted(init, v), last);
      } else {
        AppendHighest(versions, v);
      }
    }
  }

  lemma OneIsAscending(v: int)
    ensures Ascending([] + [v])
  {
  }

  // [...keys].sort((left, right) => left - right)
  method SortVersions(keys: seq<int>) returns (versions: seq<int>)
    requires Distinct(keys)
    ensures Ascending(versions) && forall v :: v in versions <==> v in keys
  {
    versions := [];
    for k := 0 to |keys|
      invariant Ascending(versions) && forall v :: v in versions <==> v in keys[..k]
    {
      InsertedKeepsOrder(versions, keys[k]);
      versions := Inserted(versions, keys[k]);
      assert keys[..k + 1] == keys[..k] + [keys[k]];
    }
    assert keys[..|keys|] == keys;
  }

  // ----- one turn

  datatype Turn = Turn(selected: Message, selectableVersions: seq<int>, historicalVersions: seq<Message>)

  // The requested version if there is one of that number, and the highest otherwise.
  ghost predicate IsChosen(all: set<int>, requested: Option<int>, version: int) {
    && version in all
    && (if requested.Some? && requested.value in all then version == requested.value
        else forall v | v in all :: v <= version)
  }

  ghost predicate IsSelected(candidates: seq<Message>, requested: Option<int>, m: Message) {
    exists version :: IsChosen(Versions(candidates), requested, version) && Canonical(candidates, version, m)
  }

  lemma SelectedIsUnique(candidates: seq<Message>, requested: Option<int>, m: Message, n: Message)
    requires IsSelected(candidates, requested, m) && IsSelected(candidates, requested, n)
    ensures m == n
  {
    var v :| IsChosen(Versions(candidates), requested, v) && Canonical(candidates, v, m);
    var w :| IsChosen(Versions(candidates), requested, w) && Canonical(candidates, w, n);
    assert v == w;
    CanonicalIsUnique(candidates, v, m, n);
  }

  // The standing messages of the versions, in order; each of them is selected,
  // selectable or history.
  ghost predicate IsTurn(candidates: seq<Message>, requested: Option<int>, t: Turn) {
    && IsSelected(candidates, requested, t.selected)
    && exists versions, standing ::
         && Lists(versions, Versions(candidates))
         && Standing(candidates, versions, standing)
         && Shows(versions, standing, t)
  }

  ghost predicate Standing(candidates: seq<Message>, versions: seq<int>, standing: seq<Message>) {
    |standing| == |versions| && forall i | 0 <= i < |versions| :: Canonical(candidates, versions[i], standing[i])
  }

  ghost predicate Shows(versions: seq<int>, standing: seq<Message>, t: Turn)
    requires |standing| == |versions|
  {
    && t.selectableVersions == CompletedVersions(versions, standing)
    && t.historicalVersions == Filter(standing, (m: Message) => m != t.selected && m.status != Some(Completed))
  }

  function CompletedVersions(versions: seq<int>, standing: seq<Message>): seq<int>
    requires |standing| == |versions|
  {
    if versions == [] then []
    else
      var n := |versions| - 1;
      CompletedVersions(versions[..n], standing[..n])
      + if standing[n].status == Some(Completed) then [versions[n]] else []
  }

  lemma {:induction false} CompletedIsExact(versions: seq<int>, standing: seq<Message>)
    requires |standing| == |versions|
    ensures forall i | 0 <= i < |versions| && standing[i].status == Some(Completed) ::
              versions[i] in CompletedVersions(versions, standing)
    ensures forall v | v in CompletedVersions(versions, standing) ::
              exists i :: 0 <= i < |versions| && versions[i] == v && standing[i].status == Some(Completed)
  {
    if versions != [] {
      var n := |versions| - 1;
      CompletedIsExact(versions[..n], standing[..n]);
      forall v | v in CompletedVersions(versions[..n], standing[..n])
        ensures exists i :: 0 <= i < |versions| && versions[i] == v && standing[i].status == Some(Completed)
      {
        var i :| 0 <= i < n && versions[..n][i] == v && standing[..n][i].status == Some(Completed);
        assert versions[i] == v && standing[i].status == Some(Completed);
      }
    }
  }

  // Every version of a turn is accounted for: its standing message is complete
  // and its number can be selected, or it is the selected message, or it is history.
  lemma EveryVersionAccountedFor(candidates: seq<Message>, requested: Option<int>, t: Turn, version: int, m: Message)
    requires IsTurn(candidates, requested, t) && Canonical(candidates, version, m)
    ensures version in t.selectableVersions <==> m.status == Some(Completed)
    ensures m in t.historicalVersions <==> m != t.selected && m.status != Some(Completed)
    ensures version in t.selectableVersions || m == t.selected || m in t.historicalVersions
  {
    var versions, standing :| && Lists(versions, Versions(candidates))
                              && Standing(candidates, versions, standing)
                              && Shows(versions, standing, t);
    CanonicalHasVersion(candidates, version, m);
    assert version in versions;
    var k :| 0 <= k < |versions| && versions[k] == version;
    CanonicalIsUnique(candidates, version, m, standing[k]);
    CompletedIsExact(versions, standing);
    FilterIsExact(standing, (m: Message) => m != t.selected && m.status != Some(Completed));
    assert standing[k] in standing;
  }

  lemma Listed(versions: seq<int>, all: set<int>, v: int)
    requires Lists(versions, all) && v in all
    ensures v in versions
  {
  }

  lemma LastIsHighest(versions: seq<int>, all: set<int>)
    requires Lists(versions, all) && versions != []
    ensures versions[|versions| - 1] in all && forall v | v in all :: v <= versions[|versions| - 1]
  {
    var last := versions[|versions| - 1];
    assert last in versions;
    forall v | v in all ensures v <= last {
      var i :| 0 <= i < |versions| && versions[i] == v;
    }
  }

  // versions.map((version) => canonicalByVersion.get(version)), and the completed versions.
  method InOrder(canonical: map<int, Message>, versions: seq<int>)
      returns (standing: seq<Message>, selectable: seq<int>)
    requires forall i | 0 <= i < |versions| :: versions[i] in canonical
    ensures |standing| == |versions| && forall i | 0 <= i < |versions| :: standing[i] == canonical[versions[i]]
    ensures selectable == CompletedVersions(versions, standing)
  {
    standing, selectable := [], [];
    for k := 0 to |versions|
      invariant |standing| == k && forall i | 0 <= i < k :: standing[i] == canonical[versions[i]]
      invariant selectable == CompletedVersions(versions[..k], standing)
    {
      var message := canonical[versions[k]];
      assert versions[..k + 1][..k] == versions[..k] && (standing + [message])[..k] == standing;
      standing := standing + [message];
      if message.status == Some(Completed) {
        selectable := selectable + [versions[k]];
      }
    }
    assert versions[..|versions|] == versions;
  }

  method ReconcileTurn(candidates: seq<Message>, requested: Option<int>) returns (turn: Turn)
    requires candidates != [] && forall m | m in candidates :: m.answerVersion.Some?
    ensures IsTurn(candidates, requested, turn)
  {
    var canonical, keys := CanonicalByVersion(candidates);
    var versions := SortVersions(keys);
    ghost var all := Versions(candidates);
    assert Lists(versions, all);
    assert candidates[0] in candidates && candidates[0].answerVersion.value in all;
    Listed(versions, all, candidates[0].answerVersion.value);
    LastIsHighest(versions, all);
    var chosen := if requested.Some? && requested.value in canonical then requested.value else versions[|versions| - 1];
    assert IsChosen(all, requested, chosen);
    var selected := canonical[chosen];
    var standing, selectable := InOrder(canonical, versions);
    turn := Turn(selected, selectable, Filter(standing, (m: Message) => m != selected && m.status != Some(Completed)));
    assert Standing(candidates, versions, standing) by {
      forall i | 0 <= i < |versions| ensures Canonical(candidates, versions[i], standing[i]) {
        assert versions[i] in versions;
      }
    }
    assert Shows(versions, standing, turn);
  }

  // ----- all turns

  function RequestedFor(requested: map<string, int>, turn: string): Option<int> {
    if turn in requested then Some(requested[turn]) else None
  }

  function TurnIds(messages: seq<Message>): set<string> {
    set i | 0 <= i < |messages| && VersionedTurnId(messages[i]).Some? :: VersionedTurnId(messages[i]).value
  }

  // Every turn of the conversation with its reconciliation.
  ghost predicate AreTurns(messages: seq<Message>, requested: map<string, int>, turns: map<string, Turn>) {
    && turns.Keys == TurnIds(messages)
    && forall turn | turn in turns :: IsTurn(Candidates(messages, turn), RequestedFor(requested, turn), turns[turn])
  }

  predicate IsSelectedIn(turns: map<string, Turn>, m: Message) {
    exists turn :: turn in turns && turns[turn].selected == m
  }

  function Shown(turns: map<string, Turn>): Message -> bool {
    m => VersionedTurnId(m).None? || IsSelectedIn(turns, m)
  }

  lemma OneMoreTurn(turns: map<string, Turn>, turn: string, t: Turn, m: Message)
    requires turn !in turns
    ensures IsSelectedIn(turns[turn := t], m) <==> IsSelectedIn(turns, m) || m == t.selected
  {
    var more := turns[turn := t];
    assert more[turn] == t;
    if IsSelectedIn(turns, m) {
      var other :| other in turns && turns[other].selected == m;
      assert more[other].selected == m;
    }
  }

  lemma CandidatesOfTurn(messages: seq<Message>, turn: string)
    ensures turn in TurnIds(messages) <==> Candidates(messages, turn) != []
    ensures forall m | m in Candidates(messages, turn) ::
              m in messages && VersionedTurnId(m) == Some(turn) && m.answerVersion.Some?
  {
    FilterIsExact(messages, OfTurn(turn));
    if turn in TurnIds(messages) {
      var i :| 0 <= i < |messages| && VersionedTurnId(messages[i]) == Some(turn);
      assert messages[i] in messages;
    }
    if Candidates(messages, turn) != [] {
      var m := Candidates(messages, turn)[0];
      assert m in Candidates(messages, turn);
      var i :| 0 <= i < |messages| && messages[i] == m;
      assert VersionedTurnId(messages[i]).Some?;
    }
  }

  // The selected message is one of the turn's messages.
  lemma SelectedIsCandidate(candidates: seq<Message>, requested: Option<int>, m: Message)
    requires IsSelected(candidates, requested, m)
    ensures m in candidates
  {
    var v :| IsChosen(Versions(candidates), requested, v) && Canonical(candidates, v, m);
    CanonicalHasVersion(candidates, v, m);
  }

  ghost predicate AreSelected(selected: set<Message>, turns: map<string, Turn>) {
    forall m :: m in selected <==> IsSelectedIn(turns, m)
  }

  lemma OneMoreSelected(selected: set<Message>, turns: map<string, Turn>, turn: string, t: Turn)
    requires AreSelected(selected, turns) && turn !in turns
    ensures AreSelected(selected + {t.selected}, turns[turn := t])
  {
    forall m ensures m in selected + {t.selected} <==> IsSelectedIn(turns[turn := t], m) {
      OneMoreTurn(turns, turn, t, m);
    }
  }

  // Every turn of the messages with its candidates.
  ghost predicate Grouped(messages: seq<Message>, grouped: map<string, seq<Message>>) {
    && (forall turn :: Candidates(messages, turn) == if turn in grouped then grouped[turn] else [])
    && (forall turn | turn in grouped :: grouped[turn] != [])
  }

  // Each turn listed once.
  ghost predicate ListedOnce(order: seq<string>, grouped: map<string, seq<Message>>) {
    Distinct(order) && forall turn :: turn in order <==> turn in grouped
  }

  lemma NextOfTurn(messages: seq<Message>, k: nat, turn: string)
    requires k < |messages|
    ensures Candidates(messages[..k + 1], turn)
         == Candidates(messages[..k], turn) + if VersionedTurnId(messages[k]) == Some(turn) then [messages[k]] else []
  {
    assert messages[..k + 1][..k] == messages[..k];
  }

  lemma UnversionedNext(messages: seq<Message>, k: nat, grouped: map<string, seq<Message>>)
    requires k < |messages| && VersionedTurnId(messages[k]).None? && Grouped(messages[..k], grouped)
    ensures Grouped(messages[..k + 1], grouped)
  {
    forall turn { NextOfTurn(messages, k, turn); }
  }

  lemma VersionedNext(messages: seq<Message>, k: nat, grouped: map<string, seq<Message>>, turn: string)
    requires k < |messages| && VersionedTurnId(messages[k]) == Some(turn) && Grouped(messages[..k], grouped)
    ensures var before := if turn in grouped then grouped[turn] else [];
            Grouped(messages[..k + 1], grouped[turn := before + [messages[k]]])
  {
    var more := grouped[turn := (if turn in grouped then grouped[turn] else []) + [messages[k]]];
    forall other
      ensures Candidates(messages[..k + 1], other) == if other in more then more[other] else []
    {
      NextOfTurn(messages, k, other);
    }
  }

  // The messages of every turn, and the turns in the order in which they first appear.
  method Group(messages: seq<Message>) returns (grouped: map<string, seq<Message>>, order: seq<string>)
    ensures grouped.Keys == TurnIds(messages)
    ensures forall turn | turn in grouped :: grouped[turn] == Candidates(messages, turn)
    ensures Distinct(order) && forall turn :: turn in order <==> turn in grouped
  {
    grouped, order := map[], [];
    for k := 0 to |messages|
      invariant Grouped(messages[..k], grouped) && ListedOnce(order, grouped)
    {
      var turn := VersionedTurnId(messages[k]);
      if turn.None? {
        UnversionedNext(messages, k, grouped);
        continue;
      }
      VersionedNext(messages, k, grouped, turn.value);
      var before: seq<Message> := [];
      if turn.value in grouped {
        before := grouped[turn.value];
      } else {
        DistinctOneMore(order, turn.value);
        order := order + [turn.value];
      }
      grouped := grouped[turn.value := before + [messages[k]]];
    }
    assert messages[..|messages|] == messages;
    forall turn ensures turn in grouped <==> turn in TurnIds(messages) {
      CandidatesOfTurn(messages, turn);
    }
  }

  ghost predicate Reconciled(grouped: map<string, seq<Message>>, requested: map<string, int>,
                             turns: map<string, Turn>)
  {
    forall turn | turn in turns :: turn in grouped && IsTurn(grouped[turn], RequestedFor(requested, turn), turns[turn])
  }

  lemma OneMoreReconciled(grouped: map<string, seq<Message>>, requested: map<string, int>, turns: map<string, Turn>,
                          turn: string, t: Turn)
    requires Reconciled(grouped, requested, turns)
    requires turn in grouped && IsTurn(grouped[turn], RequestedFor(requested, turn), t)
    ensures Reconciled(grouped, requested, turns[turn := t])
  {
  }

  lemma ShownBySet(messages: seq<Message>, selected: set<Message>, turns: map<string, Turn>)
    requires AreSelected(selected, turns)
    ensures Filter(messages, m => VersionedTurnId(m).None? || m in selected) == Filter(messages, Shown(turns))
  {
    FilterSame(messages, m => VersionedTurnId(m).None? || m in selected, Shown(turns));
  }

  // The turns reconciled so far, and their selected messages.
  ghost predicate Processed(grouped: map<string, seq<Message>>, requested: map<string, int>, order: seq<string>,
                            turns: map<string, Turn>, selected: set<Message>)
  {
    && (forall turn :: turn in turns <==> turn in order)
    && Reconciled(grouped, requested, turns)
    && AreSelected(selected, turns)
  }

  lemma ProcessedNext(grouped: map<string, seq<Message>>, requested: map<string, int>, order: seq<string>, k: nat,
                      turns: map<string, Turn>, selected: set<Message>, t: Turn)
    requires k < |order| && Distinct(order) && order[k] in grouped
    requires Processed(grouped, requested, order[..k], turns, selected)
    requires IsTurn(grouped[order[k]], RequestedFor(requested, order[k]), t)
    ensures Processed(grouped, requested, order[..k + 1], turns[order[k] := t], selected + {t.selected})
  {
    var turn := order[k];
    assert order[..k + 1] == order[..k] + [turn];
    forall i | 0 <= i < k ensures order[..k][i] != turn { }
    OneMoreReconciled(grouped, requested, turns, turn, t);
    OneMoreSelected(selected, turns, turn, t);
  }

  lemma TurnOfProcessed(messages: seq<Message>, grouped: map<string, seq<Message>>, requested: map<string, int>,
                        turns: map<string, Turn>, turn: string)
    requires Reconciled(grouped, requested, turns) && turn in turns
    requires turn in grouped ==> grouped[turn] == Candidates(messages, turn)
    ensures IsTurn(Candidates(messages, turn), RequestedFor(requested, turn), turns[turn])
  {
  }

  lemma ProcessedAll(messages: seq<Message>, grouped: map<string, seq<Message>>, requested: map<string, int>,
                     order: seq<string>, turns: map<string, Turn>, selected: set<Message>)
    requires grouped.Keys == TurnIds(messages)
    requires forall turn | turn in grouped :: grouped[turn] == Candidates(messages, turn)
    requires forall turn :: turn in order <==> turn in grouped
    requires Processed(grouped, requested, order, turns, selected)
    ensures AreTurns(messages, requested, turns) && AreSelected(selected, turns)
  {
    assert forall turn :: turn in turns <==> turn in grouped;
    forall turn | turn in turns {
      TurnOfProcessed(messages, grouped, requested, turns, turn);
    }
  }

  method ReconcileChatMessages(messages: seq<Message>, requested: map<string, int>)
      returns (visible: seq<Message>, turns: map<string, Turn>)
    ensures AreTurns(messages, requested, turns)
    ensures visible == Filter(messages, Shown(turns))
  {
    var grouped, order := Group(messages);
    turns := map[];
    var selectedMessages: set<Message> := {};
    for k := 0 to |order|
      invariant Processed(grouped, requested, order[..k], turns, selectedMessages)
    {
      var turn := order[k];
      assert turn in order && turn in grouped;
      CandidatesOfTurn(messages, turn);
      var reconciled := ReconcileTurn(grouped[turn], RequestedFor(requested, turn));
      ProcessedNext(grouped, requested, order, k, turns, selectedMessages, reconciled);
      turns := turns[turn := reconciled];
      selectedMessages := selectedMessages + {reconciled.selected};
    }
    assert order[..|order|] == order;
    ProcessedAll(messages, grouped, requested, order, turns, selectedMessages);
    ShownBySet(messages, selectedMessages, turns);
    visible := Filter(messages, m => VersionedTurnId(m).None? || m in selectedMessages);
  }

  // ----- what the reader sees

  lemma SelectedOfTurn(messages: seq<Message>, requested: map<string, int>, turns: map<string, Turn>, turn: string)
    requires AreTurns(messages, requested, turns) && turn in turns
    ensures turns[turn].selected in messages && VersionedTurnId(turns[turn].selected) == Some(turn)
  {
    SelectedIsCandidate(Candidates(messages, turn), RequestedFor(requested, turn), turns[turn].selected);
    CandidatesOfTurn(messages, turn);
  }

  // Of a turn, the selected message and no other is shown.
  lemma ShownOfTurn(messages: seq<Message>, requested: map<string, int>, turns: map<string, Turn>, turn: string)
    requires Distinct(messages) && AreTurns(messages, requested, turns) && turn in turns
    ensures Candidates(Filter(messages, Shown(turns)), turn) == [turns[turn].selected]
  {
    var one := turns[turn].selected;
    var both := (m: Message) => Shown(turns)(m) && VersionedTurnId(m) == Some(turn);
    FilterTwice(messages, Shown(turns), OfTurn(turn), both);
    SelectedOfTurn(messages, requested, turns, turn);
    forall m | m in messages ensures both(m) <==> m == one {
      if both(m) {
        var other :| other in turns && turns[other].selected == m;
        SelectedOfTurn(messages, requested, turns, other);
      }
    }
    FilterOne(messages, both, one);
  }

  // The conversation shown is the given one with messages left out: all that
  // carry no version stay, and of every turn exactly the selected one does.
  lemma VisibleIsFaithful(messages: seq<Message>, requested: map<string, int>, turns: map<string, Turn>)
    requires Distinct(messages) && AreTurns(messages, requested, turns)
    ensures var visible := Filter(messages, Shown(turns));
            && IsSubsequence(visible, messages)
            && Filter(visible, (m: Message) => VersionedTurnId(m).None?)
               == Filter(messages, (m: Message) => VersionedTurnId(m).None?)
            && TurnIds(visible) == TurnIds(messages)
            && forall turn | turn in turns :: Candidates(visible, turn) == [turns[turn].selected]
  {
    var visible := Filter(messages, Shown(turns));
    FilterLeavesOut(messages, Shown(turns));
    var unversioned := (m: Message) => VersionedTurnId(m).None?;
    FilterTwice(messages, Shown(turns), unversioned, unversioned);
    forall turn | turn in turns ensures Candidates(visible, turn) == [turns[turn].selected] {
      ShownOfTurn(messages, requested, turns, turn);
    }
    FilterIsExact(messages, Shown(turns));
    forall turn ensures turn in TurnIds(visible) <==> turn in TurnIds(messages) {
      CandidatesOfTurn(visible, turn);
      CandidatesOfTurn(messages, turn);
      if turn in TurnIds(visible) {
        var m := Candidates(visible, turn)[0];
        assert m in Candidates(visible, turn);
        FilterIsExact(messages, OfTurn(turn));
      }
    }
  }

  // A turn with one message has that message selected.
  lemma OnlyCandidate(m: Message, requested: Option<int>, n: Message)
    requires IsSelected([m], requested, n)
    ensures m == n
  {
    SelectedIsCandidate([m], requested, n);
  }

  // A message that is shown and selected once is selected again.
  lemma SelectedAgain(messages: seq<Message>, requested: map<string, int>,
                      turns: map<string, Turn>, again: map<string, Turn>)
    requires Distinct(messages) && AreTurns(messages, requested, turns)
    requires AreTurns(Filter(messages, Shown(turns)), requested, again)
    ensures again.Keys == turns.Keys && forall turn | turn in turns :: again[turn].selected == turns[turn].selected
  {
    VisibleIsFaithful(messages, requested, turns);
    forall turn | turn in turns ensures again[turn].selected == turns[turn].selected {
      OnlyCandidate(turns[turn].selected, RequestedFor(requested, turn), again[turn].selected);
    }
  }

  lemma SameSelectedShowsSame(messages: seq<Message>, turns: map<string, Turn>, again: map<string, Turn>)
    requires again.Keys == turns.Keys && forall turn | turn in turns :: again[turn].selected == turns[turn].selected
    ensures var visible := Filter(messages, Shown(turns)); Filter(visible, Shown(again)) == visible
  {
    var visible := Filter(messages, Shown(turns));
    FilterIsExact(messages, Shown(turns));
    forall m | m in visible ensures Shown(again)(m) {
      if VersionedTurnId(m).Some? {
        var turn :| turn in turns && turns[turn].selected == m;
        assert again[turn].selected == m;
      }
    }
    FilterAll(visible, Shown(again));
  }

  // Reconciling what is already shown selects the same messages and hides nothing more.
  lemma ReconcilingAgainChangesNothing(messages: seq<Message>, requested: map<string, int>,
                                       turns: map<string, Turn>, again: map<string, Turn>)
    requires Distinct(messages) && AreTurns(messages, requested, turns)
    requires AreTurns(Filter(messages, Shown(turns)), requested, again)
    ensures again.Keys == turns.Keys && forall turn | turn in turns :: again[turn].selected == turns[turn].selected
    ensures var visible := Filter(messages, Shown(turns)); Filter(visible, Shown(again)) == visible
  {
    SelectedAgain(messages, requested, turns, again);
    SameSelectedShowsSame(messages, turns, again);
  }
}
