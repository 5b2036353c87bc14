/** The registration draft: saved piecemeal, confirmed with a token, and registered with that token and
    the files it was confirmed for. */
module Draft {
  import opened Options

  type Bytes = seq<int>
  type Token = string

  /** SHA-256, as a function of the bytes. */
  type Sha = Bytes -> string

  // ---------- The digest of an ordered set of files ----------

  /** An upload as it is read: in chunks. */
  type Upload = seq<Bytes>

  function Concat(chunks: seq<Bytes>): Bytes
  {
    if chunks == [] then [] else Concat(chunks[..|chunks| - 1]) + chunks[|chunks| - 1]
  }

  /** Hash incrementally, chunk by chunk. */
  method UploadSha256(upload: Upload, sha: Sha) returns (digest: string)
    ensures digest == sha(Concat(upload))
  {
    var fed: Bytes := [];
    for i := 0 to |upload|
      invariant fed == Concat(upload[..i])
    {
      assert upload[..i + 1][..i] == upload[..i];
      fed := fed + upload[i];
    }
    assert upload[..|upload|] == upload;
    digest := sha(fed);
  }

  function Ascii(s: string): Bytes
  {
    seq(|s|, i requires 0 <= i < |s| => s[i] as int)
  }

  function JoinLines(lines: seq<string>): string
    requires lines != []
  {
    if |lines| == 1 then lines[0] else JoinLines(lines[..|lines| - 1]) + "\n" + lines[|lines| - 1]
  }

  /** No file: the hash of nothing. One file: its own hash. More: the hash of their hashes, one a line. */
  function ManifestSha256(hashes: seq<string>, sha: Sha): string
  {
    if hashes == [] then sha([]) else if |hashes| == 1 then hashes[0] else sha(Ascii(JoinLines(hashes)))
  }

  function Hashes(contents: seq<Bytes>, sha: Sha): seq<string>
  {
    seq(|contents|, i requires 0 <= i < |contents| => sha(contents[i]))
  }

  function ContentManifest(contents: seq<Bytes>, sha: Sha): string
  {
    ManifestSha256(Hashes(contents, sha), sha)
  }

  method UploadManifest(uploads: seq<Upload>, sha: Sha) returns (digest: string)
    ensures digest == ContentManifest(Contents(uploads), sha)
  {
    var hashes := [];
    for i := 0 to |uploads|
      invariant |hashes| == i && forall k :: 0 <= k < i ==> hashes[k] == sha(Concat(uploads[k]))
    {
      var hash := UploadSha256(uploads[i], sha);
      hashes := hashes + [hash];
    }
    assert hashes == Hashes(Contents(uploads), sha);
    digest := ManifestSha256(hashes, sha);
  }

  function Contents(uploads: seq<Upload>): seq<Bytes>
  {
    seq(|uploads|, i requires 0 <= i < |uploads| => Concat(uploads[i]))
  }

  // ---------- The draft ----------

  datatype Status = COLLECTING | CONFIRMED | EXECUTED

  datatype Draft = Draft(status: Status, fields: map<string, string>, fileName: string, digest: string,
                         token: Option<Token>)

  const ALLOWED_FIELDS := {"asset_type", "title", "description", "tags", "min_price", "target_price", "visibility"}
  const REQUIRED_FIELDS := {"asset_type", "title", "min_price", "target_price", "visibility"}

  function NewDraft(): Draft { Draft(COLLECTING, map[], "", "", None) }

  /** A save: values for some fields, perhaps a file name, perhaps the digest of newly attached files. */
  datatype SaveRequest = SaveRequest(fields: map<string, Option<string>>, fileName: string, digest: Option<string>)

  predicate IsBlank(c: char) { c == ' ' || c == '\t' || c == '\n' || c == '\r' }

  function Strip(s: string): string
  {
    if s == "" then ""
    else if IsBlank(s[0]) then Strip(s[1..])
    else if IsBlank(s[|s| - 1]) then Strip(s[..|s| - 1])
    else s
  }

  function Cleaned(fields: map<string, Option<string>>): map<string, string>
  {
    map k | k in fields && fields[k].Some? :: Strip(fields[k].value)
  }

  function NameOf(given: string, stored: string): string
  {
    var name := Strip(if given != "" then given else stored);
    if |name| <= 255 then name else name[..255]
  }

  predicate SaveAllowed(d: Draft, r: SaveRequest)
  {
    d.status != EXECUTED && r.fields.Keys <= ALLOWED_FIELDS
  }

  /** Merging anything into a draft takes its confirmation back. */
  function Save(d: Draft, r: SaveRequest): Draft
  {
    if !SaveAllowed(d, r) then d
    else
      Draft(COLLECTING, d.fields + Cleaned(r.fields), NameOf(r.fileName, d.fileName),
            if r.digest.Some? then r.digest.value else d.digest, None)
  }

  predicate Ready(d: Draft)
  {
    d.fileName != "" && d.digest != "" && forall k :: k in REQUIRED_FIELDS ==> k in d.fields && Strip(d.fields[k]) != ""
  }

  function Confirm(d: Draft, newToken: Token): Draft
  {
    if Ready(d) then d.(status := CONFIRMED, token := Some(newToken)) else d
  }

  function MarkExecuted(d: Draft): Draft
  {
    if d.status == CONFIRMED then d.(status := EXECUTED) else d
  }

  /** The fields to register, or None if the draft, the token or the files do not match. */
  function Consume(d: Draft, token: Token, digest: string): Option<map<string, string>>
  {
    if d.status != CONFIRMED || d.token != Some(token) || digest != d.digest then None else Some(d.fields)
  }

  /** The stored row. */
  class DraftRow {
    var status: Status
    var fields: map<string, string>
    var fileName: string
    var digest: string
    var token: Option<Token>

    ghost function View(): Draft
      reads this
    {
      Draft(status, fields, fileName, digest, token)
    }

    constructor ()
      ensures View() == NewDraft()
    {
      status, fields, fileName, digest, token := COLLECTING, map[], "", "", None;
    }

    method SaveDraft(newFields: map<string, Option<string>>, name: string, uploads: Option<seq<Upload>>, sha: Sha)
      returns (saved: bool)
      modifies this
      ensures var digest := if uploads.Some? then Some(ContentManifest(Contents(uploads.value), sha)) else None;
              var r := SaveRequest(newFields, name, digest);
              saved == SaveAllowed(old(View()), r) && View() == Save(old(View()), r)
    {
      if status == EXECUTED || !(newFields.Keys <= ALLOWED_FIELDS) {
        return false;
      }
      fields := fields + Cleaned(newFields);
      fileName := NameOf(name, fileName);
      if uploads.Some? {
        digest := UploadManifest(uploads.value, sha);
      }
      status, token := COLLECTING, None;
      saved := true;
    }

    method ConfirmDraft(newToken: Token) returns (confirmed: bool)
      modifies this
      ensures confirmed == Ready(old(View())) && View() == Confirm(old(View()), newToken)
    {
      confirmed := fileName != "" && digest != ""
                   && forall k :: k in REQUIRED_FIELDS ==> k in fields && Strip(fields[k]) != "";
      if confirmed {
        status, token := CONFIRMED, Some(newToken);
      }
    }

    method ConsumeDraft(given: Token, uploads: seq<Upload>, sha: Sha) returns (result: Option<map<string, string>>)
      ensures result == Consume(View(), given, ContentManifest(Contents(uploads), sha))
    {
      if status != CONFIRMED || token != Some(given) {
        return None;
      }
      var now := UploadManifest(uploads, sha);
      result := if now != digest then None else Some(fields);
    }
  }

  // ---------- What is saved and what is ready ----------

  /** What stripping leaves: a stretch of the text with a blank at neither end, only blanks around it. */
  lemma {:induction false} StripRemovesOuterBlanks(s: string) returns (i: nat, j: nat)
    ensures i <= j <= |s| && Strip(s) == s[i..j]
    ensures forall k :: 0 <= k < i || j <= k < |s| ==> s[k] in {' ', '\t', '\n', '\r'}
    ensures i < j ==> s[i] !in {' ', '\t', '\n', '\r'} && s[j - 1] !in {' ', '\t', '\n', '\r'}
    decreases |s|
  {
    i, j := 0, |s|;
    if s != "" && IsBlank(s[0]) {
      i, j := StripRemovesOuterBlanks(s[1..]);
      assert s[1..][i..j] == s[i + 1..j + 1];
      assert forall k :: 0 < k < |s| ==> s[k] == s[1..][k - 1];
      i, j := i + 1, j + 1;
    } else if s != "" && IsBlank(s[|s| - 1]) {
      i, j := StripRemovesOuterBlanks(s[..|s| - 1]);
    }
  }

  /** A save that is carried out leaves, under each key, the stripped new value if one was given, and else
      the one stored before; the digest and the name of newly attached files, and else the old ones;
      and no confirmation. Any other save changes nothing. */
  lemma SaveMergesPerKey(d: Draft, r: SaveRequest)
    ensures var after := Save(d, r);
            var name := Strip(if r.fileName != "" then r.fileName else d.fileName);
            var allowed := {"asset_type", "title", "description", "tags", "min_price", "target_price", "visibility"};
            if d.status == EXECUTED || !(r.fields.Keys <= allowed) then after == d
            else
              && (forall k :: k in after.fields <==> k in d.fields || (k in r.fields && r.fields[k].Some?))
              && (forall k :: k in after.fields ==>
                    after.fields[k] == if k in r.fields && r.fields[k].Some? then Strip(r.fields[k].value) else d.fields[k])
              && after.digest == (if r.digest.Some? then r.digest.value else d.digest)
              && after.fileName == (if |name| <= 255 then name else name[..255])
              && after.status == COLLECTING && after.token == None
  {
    hide Strip;
  }

  /** What a confirmation finds filled in. */
  ghost predicate FilledIn(s: Snapshot)
  {
    && s.digest != ""
    && forall k :: k in {"asset_type", "title", "min_price", "target_price", "visibility"} ==>
                     k in s.fields && Strip(s.fields[k]) != ""
  }

  lemma ReadyExactlyWhen(d: Draft)
    ensures Ready(d) <==> d.fileName != "" && FilledIn(SnapshotOf(d))
  {
    hide Strip;
  }

  // ---------- Overlapping requests ----------

  /** The part of a draft that is registered. */
  datatype Snapshot = Snapshot(fields: map<string, string>, digest: string)

  function SnapshotOf(d: Draft): Snapshot { Snapshot(d.fields, d.digest) }

  /** A request between its read of the row and its write: a save has composed the whole row, a
      confirmation has validated what it read. */
  datatype Pending = Saving(row: Draft) | Confirming(validated: Snapshot)

  /** What was validated for a token, and what the row held when the token was written to it. */
  datatype Issue = Issue(validated: Snapshot, stored: Snapshot)

  /** The row, the requests under way, and the record of every token ever issued. */
  datatype State = State(draft: Draft, pending: map<nat, Pending>, issued: map<Token, Issue>)

  datatype Event =
    | BeginSave(worker: nat, request: SaveRequest)
    | BeginConfirm(worker: nat)
    | WriteSave(worker: nat)
    | WriteConfirm(worker: nat, newToken: Token)
    | Execute

  function Without(pending: map<nat, Pending>, w: nat): map<nat, Pending> { pending - {w} }

  /** One step; an event that is not enabled changes nothing. Neither write takes a lock: a save puts
      back the whole row, a confirmation only status and token. Tokens are random and never repeat. */
  function Step(st: State, e: Event): State
  {
    match e
    case BeginSave(w, r) =>
      if w in st.pending || !SaveAllowed(st.draft, r) then st
      else st.(pending := st.pending[w := Saving(Save(st.draft, r))])
    case BeginConfirm(w) =>
      if w in st.pending || !Ready(st.draft) then st
      else st.(pending := st.pending[w := Confirming(SnapshotOf(st.draft))])
    case WriteSave(w) =>
      if w in st.pending && st.pending[w].Saving?
      then st.(draft := st.pending[w].row, pending := Without(st.pending, w))
      else st
    case WriteConfirm(w, newToken) =>
      if w in st.pending && st.pending[w].Confirming? && newToken !in st.issued
      then State(st.draft.(status := CONFIRMED, token := Some(newToken)), Without(st.pending, w),
                 st.issued[newToken := Issue(st.pending[w].validated, SnapshotOf(st.draft))])
      else st
    case Execute => st.(draft := MarkExecuted(st.draft))
  }

  function Run(st: State, events: seq<Event>): State
    decreases |events|
  {
    if events == [] then st else Step(Run(st, events[..|events| - 1]), events[|events| - 1])
  }

  function NewState(): State { State(NewDraft(), map[], map[]) }

  /** A request served alone is its read and its write, one after the other. */
  lemma ServedAlone(st: State, r: SaveRequest, newToken: Token)
    requires st.pending == map[] && newToken !in st.issued
    ensures Step(Step(st, BeginSave(0, r)), WriteSave(0)) == st.(draft := Save(st.draft, r))
    ensures Step(Step(st, BeginConfirm(0)), WriteConfirm(0, newToken))
         == if Ready(st.draft)
            then State(Confirm(st.draft, newToken), map[],
                       st.issued[newToken := Issue(SnapshotOf(st.draft), SnapshotOf(st.draft))])
            else st
  {
    assert Without(map[0 := Saving(Save(st.draft, r))], 0) == map[];
    assert Without(map[0 := Confirming(SnapshotOf(st.draft))], 0) == map[];
  }

  /** The token a draft carries, if any, is on record with what the draft still holds; a row about to
      be saved carries none. */
  ghost predicate TokenFits(st: State)
  {
    && (st.draft.token.Some? ==>
          st.draft.token.value in st.issued && st.issued[st.draft.token.value].stored == SnapshotOf(st.draft))
    && (forall w :: w in st.pending && st.pending[w].Saving? ==>
          st.pending[w].row.token.None? && st.pending[w].row.status == COLLECTING)
  }

  lemma {:induction false} TokenAlwaysFits(st: State, events: seq<Event>)
    requires TokenFits(st)
    ensures TokenFits(Run(st, events))
    ensures forall t :: t in st.issued ==> t in Run(st, events).issued && Run(st, events).issued[t] == st.issued[t]
    decreases |events|
  {
    if events != [] {
      TokenAlwaysFits(st, events[..|events| - 1]);
    }
  }

  ghost predicate TokenMeansConfirmed(st: State)
  {
    && (st.draft.status == COLLECTING <==> st.draft.token.None?)
    && (st.draft.token.Some? ==> st.draft.token.value in st.issued)
    && forall w :: w in st.pending && st.pending[w].Saving? ==>
         st.pending[w].row.token.None? && st.pending[w].row.status == COLLECTING
  }

  lemma {:induction false} StatusFollowsTheToken(events: seq<Event>)
    ensures TokenMeansConfirmed(Run(NewState(), events))
    decreases |events|
  {
    if events != [] {
      StatusFollowsTheToken(events[..|events| - 1]);
    }
  }

  /** At any point of any run, marking the draft as done makes it so exactly when a token was issued on it
      since the last save, and alters nothing else. */
  lemma OnlyConfirmedDraftsAreExecuted(events: seq<Event>)
    ensures var (st, after) := (Run(NewState(), events), Run(NewState(), events + [Execute]));
            && (after.draft.status == EXECUTED <==> st.draft.token.Some?)
            && (st.draft.token.Some? ==> st.draft.token.value in st.issued)
            && after == st.(draft := st.draft.(status := after.draft.status))
            && (after.draft.status != EXECUTED ==> after == st)
  {
    StatusFollowsTheToken(events);
    var all := events + [Execute];
    assert all[..|all| - 1] == events;
  }

  ghost predicate OnlyFilledIn(st: State)
  {
    && (forall t :: t in st.issued ==> FilledIn(st.issued[t].validated))
    && forall w :: w in st.pending && st.pending[w].Confirming? ==> FilledIn(st.pending[w].validated)
  }

  /** Over every run, whatever overlaps: each token was issued on a draft read with its type, title, prices
      and visibility filled in and files attached. */
  lemma {:induction false} TokensAreIssuedOnFilledInDrafts(events: seq<Event>)
    ensures OnlyFilledIn(Run(NewState(), events))
    decreases |events|
  {
    if events != [] {
      TokensAreIssuedOnFilledInDrafts(events[..|events| - 1]);
      hide Save, SaveAllowed, Strip;
    }
  }

  /** What the last save written in a run put into the row. */
  ghost function LastSaved(st: State, events: seq<Event>): Option<Snapshot>
    decreases |events|
  {
    if events == [] then None
    else
      var front, e := events[..|events| - 1], events[|events| - 1];
      var mid := Run(st, front);
      if e.WriteSave? && e.worker in mid.pending && mid.pending[e.worker].Saving?
      then Some(SnapshotOf(mid.pending[e.worker].row))
      else LastSaved(st, front)
  }

  lemma {:induction false} OnlySavesChangeTheRow(st: State, events: seq<Event>)
    ensures SnapshotOf(Run(st, events).draft)
         == if LastSaved(st, events).Some? then LastSaved(st, events).value else SnapshotOf(st.draft)
    decreases |events|
  {
    if events != [] {
      OnlySavesChangeTheRow(st, events[..|events| - 1]);
    }
  }

  lemma {:induction false} PendingWaits(st: State, events: seq<Event>, w: nat)
    requires w in st.pending && forall e :: e in events && !e.Execute? ==> e.worker != w
    ensures w in Run(st, events).pending && Run(st, events).pending[w] == st.pending[w]
    decreases |events|
  {
    if events != [] {
      assert events[|events| - 1] in events;
      PendingWaits(st, events[..|events| - 1], w);
    }
  }

  /** A dead token - issued, but no longer in the row - stays dead. */
  lemma {:induction false} DeadTokensStayDead(st: State, events: seq<Event>, token: Token)
    requires TokenFits(st) && token in st.issued && st.draft.token != Some(token)
    ensures Run(st, events).draft.token != Some(token)
    decreases |events|
  {
    if events != [] {
      var front := events[..|events| - 1];
      DeadTokensStayDead(st, front, token);
      TokenAlwaysFits(st, front);
    }
  }

  /** While a token lives no save is written. */
  lemma {:induction false} LiveTokenMeansNoSave(st: State, events: seq<Event>, token: Token)
    requires TokenFits(st) && token in st.issued && Run(st, events).draft.token == Some(token)
    ensures LastSaved(st, events) == None && SnapshotOf(Run(st, events).draft) == SnapshotOf(st.draft)
    decreases |events|
  {
    if events != [] {
      var front, e := events[..|events| - 1], events[|events| - 1];
      var mid := Run(st, front);
      TokenAlwaysFits(st, front);
      if mid.draft.token != Some(token) {
        DeadTokensStayDead(mid, [e], token);
      } else {
        LiveTokenMeansNoSave(st, front, token);
      }
    }
  }

  /** Exactly what an accepted token yields, whatever overlaps: a confirmation reads the draft, other
      requests go on, the confirmation writes its token, others go on again. If the token is accepted
      at the end, it yields the very fields and digest that were validated if and only if the last
      save written between the read and the write - if there was one - had stored the same ones. */
  lemma AcceptedTokenYieldsWhatWasConfirmed(before: seq<Event>, w: nat, between: seq<Event>, token: Token,
                                            after: seq<Event>, digest: string)
    requires var read := Run(NewState(), before);
             w !in read.pending && Ready(read.draft) && forall e :: e in between && !e.Execute? ==> e.worker != w
    requires token !in Run(Step(Run(NewState(), before), BeginConfirm(w)), between).issued
    ensures var read := Run(NewState(), before);
            var begun := Step(read, BeginConfirm(w));
            var written := Step(Run(begun, between), WriteConfirm(w, token));
            var result := Consume(Run(written, after).draft, token, digest);
            && (result.Some? ==>
                  (Snapshot(result.value, digest) == SnapshotOf(read.draft)
                   <==> LastSaved(begun, between) in {None, Some(SnapshotOf(read.draft))}))
            && (between == [] && result.Some? ==> Snapshot(result.value, digest) == SnapshotOf(read.draft))
            && Consume(written.draft, token, written.draft.digest) == Some(written.draft.fields)
  {
    var read := Run(NewState(), before);
    var begun := Step(read, BeginConfirm(w));
    var mid := Run(begun, between);
    var written := Step(mid, WriteConfirm(w, token));
    TokenAlwaysFits(NewState(), before);
    TokenAlwaysFits(begun, between);
    PendingWaits(begun, between, w);
    OnlySavesChangeTheRow(begun, between);
    hide LastSaved, Run;
    if Run(written, after).draft.token == Some(token) {
      LiveTokenMeansNoSave(written, after, token);
    }
  }

  /** A step that writes to the row: a registration marked as done, a save or a confirmation. */
  predicate WritesRow(st: State, e: Event)
  {
    match e
    case WriteSave(w) => w in st.pending && st.pending[w].Saving?
    case WriteConfirm(w, newToken) => w in st.pending && st.pending[w].Confirming? && newToken !in st.issued
    case Execute => true
    case _ => false
  }

  ghost predicate RowUntouched(st: State, events: seq<Event>)
    decreases |events|
  {
    events == []
    || (RowUntouched(st, events[..|events| - 1]) && !WritesRow(Run(st, events[..|events| - 1]), events[|events| - 1]))
  }

  ghost predicate LiveToken(st: State, token: Token)
  {
    st.draft.status == CONFIRMED && st.draft.token == Some(token)
  }

  /** While a token is live, exactly the steps that write to the row end it. */
  lemma StepEndsToken(st: State, e: Event, token: Token)
    requires TokenFits(st) && token in st.issued && LiveToken(st, token)
    ensures LiveToken(Step(st, e), token) <==> !WritesRow(st, e)
    ensures LiveToken(Step(st, e), token) ==> Step(st, e).draft == st.draft
  {
    hide Save, SaveAllowed, Ready;
  }

  /** An ended token is not revived. */
  lemma StepRevivesNoToken(st: State, e: Event, token: Token)
    requires TokenFits(st) && token in st.issued && !LiveToken(st, token)
    ensures !LiveToken(Step(st, e), token)
  {
    hide Save, SaveAllowed, Ready;
  }

  lemma {:induction false} TokenLivesWhileRowIsUntouched(st: State, events: seq<Event>, token: Token)
    requires TokenFits(st) && token in st.issued && LiveToken(st, token)
    ensures LiveToken(Run(st, events), token) <==> RowUntouched(st, events)
    ensures RowUntouched(st, events) ==> Run(st, events).draft == st.draft
    decreases |events|
  {
    if events != [] {
      var front, e := events[..|events| - 1], events[|events| - 1];
      TokenLivesWhileRowIsUntouched(st, front, token);
      TokenAlwaysFits(st, front);
      hide Step, WritesRow, LiveToken, TokenFits;
      if LiveToken(Run(st, front), token) {
        StepEndsToken(Run(st, front), e, token);
      } else {
        StepRevivesNoToken(Run(st, front), e, token);
      }
    }
  }

  /** A registration that was let in does not use its token up; marking it as done, later, does. So
      exactly when the same token and files let a second registration in: when nothing was written to
      the row in between - no registration marked as done, no save, no confirmation. And if the row
      was written to, no files let the token in any more. */
  lemma TokenIsAcceptedAgainExactlyWhen(before: seq<Event>, between: seq<Event>, token: Token, digest: string)
    requires Consume(Run(NewState(), before).draft, token, digest).Some?
    ensures var st := Run(NewState(), before);
            && (Consume(Run(st, between).draft, token, digest).Some? <==> RowUntouched(st, between))
            && (RowUntouched(st, between) ==> Run(st, between).draft == st.draft)
            && (!RowUntouched(st, between) ==> forall other :: Consume(Run(st, between).draft, token, other).None?)
  {
    TokenAlwaysFits(NewState(), before);
    TokenLivesWhileRowIsUntouched(Run(NewState(), before), between, token);
    hide Run, RowUntouched, TokenFits;
  }

  /** So a save slipping in between is enough to make a token yield what nobody validated. */
  lemma OverlappingSaveSlipsThrough(st: State, r: SaveRequest, token: Token)
    requires st.pending == map[] && token !in st.issued && Ready(st.draft) && SaveAllowed(st.draft, r)
    requires SnapshotOf(Save(st.draft, r)) != SnapshotOf(st.draft)
    ensures var end := Step(Step(Step(Step(st, BeginConfirm(1)), BeginSave(2, r)), WriteSave(2)), WriteConfirm(1, token));
            var saved := Save(st.draft, r);
            && Consume(end.draft, token, saved.digest) == Some(saved.fields)
            && Snapshot(saved.fields, saved.digest) != SnapshotOf(st.draft)
            && end.issued[token].validated == SnapshotOf(st.draft)
  {
    hide Save, Ready, SaveAllowed;
  }

  /** Any save that is written kills every token issued before it, for good: whatever happens later,
      and whatever files are sent along, none of them is accepted again. */
  lemma SaveKillsEarlierTokens(before: seq<Event>, w: nat, events: seq<Event>, token: Token, digest: string)
    requires var st := Run(NewState(), before);
             token in st.issued && w in st.pending && st.pending[w].Saving?
    ensures Consume(Run(Step(Run(NewState(), before), WriteSave(w)), events).draft, token, digest) == None
  {
    var st := Run(NewState(), before);
    TokenAlwaysFits(NewState(), before);
    DeadTokensStayDead(Step(st, WriteSave(w)), events, token);
  }

  /** How a file is cut into chunks leaves no trace in what is hashed. */
  lemma {:induction false} ChunkingIsIrrelevant(chunks: Upload, more: Upload)
    ensures Concat(chunks + more) == Concat(chunks) + Concat(more)
    ensures Concat([Concat(chunks)]) == Concat(chunks)
    decreases |more|
  {
    OneChunk(Concat(chunks));
    if more == [] {
      assert chunks + more == chunks;
    } else {
      var k := |more| - 1;
      ChunkingIsIrrelevant(chunks, more[..k]);
      LastChunk(more);
      LastChunk(chunks + more);
      assert (chunks + more)[..|chunks + more| - 1] == chunks + more[..k];
      hide Concat;
      assert Concat(chunks) + Concat(more[..k]) + more[k] == Concat(chunks) + (Concat(more[..k]) + more[k]);
    }
  }

  lemma OneChunk(chunk: Bytes)
    ensures Concat([chunk]) == chunk
  {
    assert [chunk][..0] == [];
  }

  lemma LastChunk(chunks: Upload)
    requires chunks != []
    ensures Concat(chunks) == Concat(chunks[..|chunks| - 1]) + chunks[|chunks| - 1]
  {
  }

  // ---------- What a digest pins down ----------

  /** The registration pipeline's own computation, over whole contents. */
  method WorkManifestHash(primary: Bytes, gallery: seq<Bytes>, sha: Sha) returns (digest: string)
    ensures digest == ContentManifest([primary] + gallery, sha)
  {
    var contents := [primary];
    for i := 0 to |gallery|
      invariant contents == [primary] + gallery[..i]
    {
      contents := contents + [gallery[i]];
    }
    assert gallery[..|gallery|] == gallery;
    digest := ContentManifest(contents, sha);
  }

  /** The bytes whose hash a manifest digest is: nothing for no file, a single file itself, and for
      several files the lines of their hashes. */
  function Preimage(contents: seq<Bytes>, sha: Sha): Bytes
  {
    if contents == [] then [] else if |contents| == 1 then contents[0] else Ascii(JoinLines(Hashes(contents, sha)))
  }

  lemma ManifestHashesThePreimage(contents: seq<Bytes>, sha: Sha)
    ensures ContentManifest(contents, sha) == sha(Preimage(contents, sha))
  {
  }

  /** Everything that is hashed on the way to a manifest digest. */
  ghost function Hashed(contents: seq<Bytes>, sha: Sha): set<Bytes>
  {
    (set i | 0 <= i < |contents| :: contents[i]) + {Preimage(contents, sha)}
  }

  ghost predicate NoCollision(sha: Sha, inputs: set<Bytes>)
  {
    forall x, y :: x in inputs && y in inputs && sha(x) == sha(y) ==> x == y
  }

  lemma {:induction false} JoinLength(lines: seq<string>, width: nat)
    requires lines != [] && forall i :: 0 <= i < |lines| ==> |lines[i]| == width
    ensures |JoinLines(lines)| == |lines| * (width + 1) - 1
  {
    if |lines| > 1 {
      JoinLength(lines[..|lines| - 1], width);
    }
  }

  lemma {:induction false} JoinIsInjective(a: seq<string>, b: seq<string>, width: nat)
    requires a != [] && b != [] && JoinLines(a) == JoinLines(b)
    requires forall i :: 0 <= i < |a| ==> |a[i]| == width
    requires forall i :: 0 <= i < |b| ==> |b[i]| == width
    ensures a == b
  {
    JoinLength(a, width);
    JoinLength(b, width);
    SameCount(|a|, |b|, width);
    if |a| > 1 {
      var n := |a| - 1;
      var s := JoinLines(a);
      JoinLength(a[..n], width);
      JoinLength(b[..n], width);
      var m := |JoinLines(a[..n])|;
      assert s[..m] == JoinLines(a[..n]) && s[m + 1..] == a[n];
      assert s[..m] == JoinLines(b[..n]) && s[m + 1..] == b[n];
      JoinIsInjective(a[..n], b[..n], width);
      assert a == a[..n] + [a[n]] && b == b[..n] + [b[n]];
    }
  }

  lemma SameCount(x: nat, y: nat, width: nat)
    requires x * (width + 1) == y * (width + 1)
    ensures x == y
  {
  }

  lemma AsciiIsInjective(a: string, b: string)
    requires Ascii(a) == Ascii(b)
    ensures a == b
  {
    assert |a| == |Ascii(a)| == |b|;
    forall i | 0 <= i < |a|
      ensures a[i] == b[i]
    {
      assert Ascii(a)[i] == Ascii(b)[i];
    }
  }

  lemma PreimagePinsDownSeveral(a: seq<Bytes>, b: seq<Bytes>, sha: Sha)
    requires |a| > 1 && Preimage(a, sha) == Preimage(b, sha) && |b| != 1
    requires forall x :: x in Hashed(a, sha) + Hashed(b, sha) ==> |sha(x)| == 64
    requires NoCollision(sha, Hashed(a, sha) + Hashed(b, sha))
    ensures a == b
  {
    assert forall i :: 0 <= i < |a| ==> a[i] in Hashed(a, sha);
    assert forall i :: 0 <= i < |b| ==> b[i] in Hashed(b, sha);
    var ha, hb := Hashes(a, sha), Hashes(b, sha);
    JoinLength(ha, 64);
    assert |Preimage(a, sha)| == |JoinLines(ha)|;
    assert b != [];
    AsciiIsInjective(JoinLines(ha), JoinLines(hb));
    JoinIsInjective(ha, hb, 64);
    forall i | 0 <= i < |a|
      ensures a[i] == b[i]
    {
      assert ha[i] == hb[i];
    }
  }

  /** With 64-character digests and no collision among what is hashed, two ordered sets of files - of
      any sizes - have the same manifest digest exactly when they are the same files in the same
      order, or one of them is the single file that spells out what the other's digest is the hash
      of. */
  lemma DigestPinsDownTheFiles(a: seq<Bytes>, b: seq<Bytes>, sha: Sha)
    requires forall x :: x in Hashed(a, sha) + Hashed(b, sha) ==> |sha(x)| == 64
    requires NoCollision(sha, Hashed(a, sha) + Hashed(b, sha))
    ensures ContentManifest(a, sha) == ContentManifest(b, sha)
            <==> a == b || a == [Preimage(b, sha)] || b == [Preimage(a, sha)]
  {
    ManifestHashesThePreimage(a, sha);
    ManifestHashesThePreimage(b, sha);
    if ContentManifest(a, sha) == ContentManifest(b, sha) {
      assert Preimage(a, sha) in Hashed(a, sha) && Preimage(b, sha) in Hashed(b, sha);
      assert Preimage(a, sha) == Preimage(b, sha);
      if |a| > 1 && |b| != 1 {
        PreimagePinsDownSeveral(a, b, sha);
      } else if |b| > 1 && |a| != 1 {
        PreimagePinsDownSeveral(b, a, sha);
      }
    }
  }

  /** So a token does not pin down the number of files: for whatever files it was issued, the one file
      that spells out what their digest is the hash of is let through as well. */
  lemma OneFileCanStandForSeveral(d: Draft, token: Token, contents: seq<Bytes>, sha: Sha)
    ensures ContentManifest([Preimage(contents, sha)], sha) == ContentManifest(contents, sha)
    ensures Consume(d, token, ContentManifest([Preimage(contents, sha)], sha))
         == Consume(d, token, ContentManifest(contents, sha))
    ensures |contents| > 1 ==> [Preimage(contents, sha)] != contents
  {
    ManifestHashesThePreimage(contents, sha);
    ManifestHashesThePreimage([Preimage(contents, sha)], sha);
  }
}
