/** The encrypted memory vault (agent/ollama_code/memory.py).

    Encryption is ideal: a ciphertext opens under the nonce and the associated data it was sealed with,
    and under nothing else (NIST SP 800-38D, section 7.2). */
module MemoryVault {
  import opened Options

  datatype Json = Null | Text(text: string) | Vector(items: seq<real>) | Counts(counts: map<string, nat>)

  type Payload = map<string, Json>

  datatype Status = Candidate | Approved

  datatype Scope = Personal | Workspace | Agent

  /** The columns a ciphertext is bound to. */
  datatype Bound = Bound(id: string, status: Status, scope: Scope, target: string, revision: nat)

  datatype Cipher = Cipher(nonce: int, bound: Bound, plaintext: Payload)

  datatype Row = Row(bound: Bound, nonce: int, ciphertext: Cipher, pinned: bool, stale: bool)

  type Table = map<string, Row>

  function Seal(nonce: int, bound: Bound, payload: Payload): Cipher { Cipher(nonce, bound, payload) }

  function Decrypt(nonce: int, ciphertext: Cipher, bound: Bound): Option<Payload>
  {
    if ciphertext.nonce == nonce && ciphertext.bound == bound then Some(ciphertext.plaintext) else None
  }

  function Open(row: Row): Option<Payload> { Decrypt(row.nonce, row.ciphertext, row.bound) }

  /** The row with a new payload sealed under its own columns. */
  function Reseal(row: Row, payload: Payload, nonce: int): Row
  {
    row.(nonce := nonce, ciphertext := Seal(nonce, row.bound, payload))
  }

  const EMBEDDING := "embedding"
  const EMBEDDING_MODEL := "embedding_model"
  const FEEDBACK := "feedback"

  /** What a save keeps from the previous payload when the new value does not mention it. */
  const CARRIED := {"reason", "source_session_id", "source_run_id", "provenance", "last_confirmed_at",
                    "supersedes", EMBEDDING, EMBEDDING_MODEL, FEEDBACK}

  function Get(payload: Payload, key: string): Json { if key in payload then payload[key] else Null }

  // ----- Writes -----

  /** A value to save: the payload built from it, and the keys it mentions. */
  datatype Draft = Draft(
    status: Status, scope: Scope, target: string, payload: Payload, mentioned: set<string>, pinned: bool, stale: bool)

  function SavedPayload(draft: Draft, previous: Payload): Payload
  {
    draft.payload + map key | key in CARRIED - draft.mentioned :: Get(previous, key)
  }

  /** `save`: None when the previous record cannot be decrypted. */
  function Save(rows: Table, id: string, draft: Draft, nonce: int): Option<Table>
  {
    var bound := Bound(id, draft.status, draft.scope, draft.target, if id in rows then rows[id].bound.revision + 1 else 1);
    if id in rows && Open(rows[id]).None? then None
    else
      var payload := if id in rows then SavedPayload(draft, Open(rows[id]).value) else draft.payload;
      Some(rows[id := Row(bound, nonce, Seal(nonce, bound, payload), draft.pinned, draft.stale)])
  }

  function CountUp(payload: Payload, outcome: string): Payload
  {
    var counts := match Get(payload, FEEDBACK) case Counts(c) => c case _ => map[];
    payload[FEEDBACK := Counts(counts[outcome := (if outcome in counts then counts[outcome] else 0) + 1])]
  }

  /** `feedback`: None when there is no such memory or it cannot be decrypted. */
  function GiveFeedback(rows: Table, id: string, outcome: string, nonce: int): Option<Table>
  {
    if id !in rows || Open(rows[id]).None? then None
    else
      var row := Reseal(rows[id], CountUp(Open(rows[id]).value, outcome), nonce);
      Some(rows[id := row.(stale := outcome == "incorrect" || row.stale)])
  }

  function Delete(rows: Table, id: string): Table { map key | key in rows && key != id :: rows[key] }

  /** Superseding marks a row stale; the flag is not bound to the ciphertext. */
  function MarkStale(rows: Table, id: string): Table
  {
    if id in rows then rows[id := rows[id].(stale := true)] else rows
  }

  function WithEmbedding(payload: Payload, model: string, vector: seq<real>): Payload
  {
    payload[EMBEDDING := Vector(vector)][EMBEDDING_MODEL := Text(model)]
  }

  /** The condition of the swap: revision, nonce and ciphertext are still those that were read. The
      status, scope and target columns are not compared. */
  predicate StillAsRead(rows: Table, read: Row)
  {
    && read.bound.id in rows
    && rows[read.bound.id].bound.revision == read.bound.revision
    && rows[read.bound.id].nonce == read.nonce && rows[read.bound.id].ciphertext == read.ciphertext
  }

  /** `_store_embedding`: reseals under the columns that were read and swaps nonce and ciphertext. */
  function StoreEmbedding(rows: Table, read: Row, payload: Payload, model: string, vector: seq<real>, nonce: int): Table
  {
    if StillAsRead(rows, read) then
      var sealed := Seal(nonce, read.bound, WithEmbedding(payload, model, vector));
      rows[read.bound.id := rows[read.bound.id].(nonce := nonce, ciphertext := sealed)]
    else rows
  }

  // ----- What every stored row keeps -----

  predicate Sound(row: Row) { Open(row).Some? }

  ghost predicate AllSound(rows: Table)
  {
    forall id :: id in rows ==> rows[id].bound.id == id && Sound(rows[id])
  }

  /** What a user edits: the columns, the flags, and the payload apart from the embedding. */
  function Essence(row: Row): (Bound, bool, bool, Payload)
    requires Sound(row)
  {
    (row.bound, row.pinned, row.stale, Open(row).value - {EMBEDDING, EMBEDDING_MODEL})
  }

  lemma SaveKeepsSound(rows: Table, id: string, draft: Draft, nonce: int)
    requires AllSound(rows)
    ensures var r := Save(rows, id, draft, nonce);
            && r.Some? && AllSound(r.value) && id in r.value
            && r.value[id].bound.revision == (if id in rows then rows[id].bound.revision + 1 else 1)
            && forall other :: other != id ==>
                 (other in r.value <==> other in rows) && (other in rows ==> r.value[other] == rows[other])
  {
  }

  /** What a save stores: the columns, flags and payload it is given, and of an earlier record, for the details it
      does not mention, what that record said. */
  lemma SaveStores(rows: Table, id: string, draft: Draft, nonce: int)
    requires AllSound(rows)
    ensures Save(rows, id, draft, nonce).Some? && id in Save(rows, id, draft, nonce).value
    ensures var row := Save(rows, id, draft, nonce).value[id];
            && row.bound.id == id && row.bound.status == draft.status && row.bound.scope == draft.scope
            && row.bound.target == draft.target && row.pinned == draft.pinned && row.stale == draft.stale
            && row.nonce == nonce && Sound(row)
            && (id !in rows ==> Open(row) == Some(draft.payload))
            && (id in rows ==>
                  forall key ::
                    Get(Open(row).value, key) ==
                    if key !in draft.mentioned
                       && key in {"reason", "source_session_id", "source_run_id", "provenance", "last_confirmed_at", "supersedes",
                                  "embedding", "embedding_model", "feedback"}
                    then Get(Open(rows[id]).value, key) else Get(draft.payload, key))
  {
  }

  /** Feedback that finds a memory wrong marks it stale; other feedback leaves the flags alone. */
  lemma FeedbackMarks(rows: Table, id: string, outcome: string, nonce: int)
    requires AllSound(rows) && id in rows
    ensures GiveFeedback(rows, id, outcome, nonce).Some?
    ensures var r, row := GiveFeedback(rows, id, outcome, nonce).value, rows[id];
            && r.Keys == rows.Keys && (forall other :: other in rows && other != id ==> r[other] == rows[other])
            && r[id].bound == row.bound && r[id].pinned == row.pinned && r[id].stale == (row.stale || outcome == "incorrect")
            && Open(r[id]) == Some(CountUp(Open(row).value, outcome))
  {
  }

  /** A superseded memory is stale and otherwise as it was. */
  lemma SupersededIsStale(rows: Table, id: string)
    ensures var r := MarkStale(rows, id);
            && r.Keys == rows.Keys && (forall other :: other in rows && other != id ==> r[other] == rows[other])
            && (id in rows ==> r[id] == rows[id].(stale := true))
  {
  }

  /** A swap lands exactly when the row is still the one that was read, but for its flags. */
  lemma SwapLandsIff(rows: Table, read: Row)
    requires AllSound(rows) && Sound(read)
    ensures StillAsRead(rows, read) <==>
            var id := read.bound.id;
            id in rows && rows[id] == read.(pinned := rows[id].pinned, stale := rows[id].stale)
  {
  }

  /** A swap that lands found exactly the row that was read, although only revision, nonce and
      ciphertext are compared: the associated data ties the other columns to the ciphertext. */
  lemma SwapFindsTheRowRead(rows: Table, read: Row)
    requires AllSound(rows) && Sound(read) && StillAsRead(rows, read)
    ensures rows[read.bound.id].bound == read.bound && Open(rows[read.bound.id]) == Open(read)
  {
  }

  /** A swap leaves every row sound and changes nothing but the embedding of the row it was for. */
  lemma SwapChangesOnlyTheEmbedding(rows: Table, read: Row, model: string, vector: seq<real>, nonce: int)
    requires AllSound(rows) && Sound(read)
    ensures var r := StoreEmbedding(rows, read, Open(read).value, model, vector, nonce);
            && AllSound(r) && r.Keys == rows.Keys
            && (forall id :: id in rows ==> Essence(r[id]) == Essence(rows[id]))
            && (forall id :: id in rows && id != read.bound.id ==> r[id] == rows[id])
            && (StillAsRead(rows, read) ==>
                  Open(r[read.bound.id]) == Some(WithEmbedding(Open(rows[read.bound.id]).value, model, vector)))
  {
    if StillAsRead(rows, read) {
      SwapFindsTheRowRead(rows, read);
      var payload := Open(read).value;
      assert WithEmbedding(payload, model, vector) - {EMBEDDING, EMBEDDING_MODEL} == payload - {EMBEDDING, EMBEDDING_MODEL};
    }
  }

  /** An edit that lands between the read and the swap is never overwritten: it moves the revision or
      the ciphertext, and the swap no longer applies. */
  lemma SaveDefeatsTheSwap(rows: Table, read: Row, draft: Draft, nonce: int)
    requires AllSound(rows) && StillAsRead(rows, read)
    ensures !StillAsRead(Save(rows, read.bound.id, draft, nonce).value, read)
  {
    SaveKeepsSound(rows, read.bound.id, draft, nonce);
  }

  lemma FeedbackDefeatsTheSwap(rows: Table, read: Row, outcome: string, nonce: int)
    requires AllSound(rows) && Sound(read) && StillAsRead(rows, read)
    ensures !StillAsRead(GiveFeedback(rows, read.bound.id, outcome, nonce).value, read)
  {
    SwapFindsTheRowRead(rows, read);
    CountUpCounts(Open(read).value, outcome);
  }

  function CountOf(payload: Payload, outcome: string): nat
  {
    match Get(payload, FEEDBACK)
    case Counts(c) => if outcome in c then c[outcome] else 0
    case _ => 0
  }

  lemma CountUpCounts(payload: Payload, outcome: string)
    ensures CountOf(CountUp(payload, outcome), outcome) == CountOf(payload, outcome) + 1
    ensures forall key :: key != FEEDBACK ==> Get(CountUp(payload, outcome), key) == Get(payload, key)
  {
  }

  // ----- Approval -----

  const CONFIRMED := "last_confirmed_at"

  /** Approval saves back what was read, confirmed now; the read value mentions neither the vector nor
      the feedback, so these are carried from whatever the row holds by then. */
  function ApprovalDraft(read: Row, target: string, confirmed: Json): Draft
    requires Sound(read)
  {
    var payload := (Open(read).value - {FEEDBACK})[EMBEDDING := Vector([])][CONFIRMED := confirmed];
    Draft(Approved, read.bound.scope, target, payload, CARRIED - {EMBEDDING, FEEDBACK}, read.pinned, read.stale)
  }

  /** The two rows agree in scope, flags and payload, apart from these payload keys. */
  ghost predicate SameButFor(a: Row, b: Row, keys: set<string>)
    requires Sound(a) && Sound(b)
  {
    && a.bound.scope == b.bound.scope && a.pinned == b.pinned && a.stale == b.stale
    && forall key :: key !in keys ==> Get(Open(a).value, key) == Get(Open(b).value, key)
  }

  /** What approving a memory that was read earlier stores. */
  function Approve(rows: Table, read: Row, target: string, confirmed: Json, nonce: int): (r: Row)
    requires AllSound(rows) && Sound(read) && read.bound.id in rows
    ensures Sound(r)
  {
    SaveKeepsSound(rows, read.bound.id, ApprovalDraft(read, target, confirmed), nonce);
    Save(rows, read.bound.id, ApprovalDraft(read, target, confirmed), nonce).value[read.bound.id]
  }

  /** Approval is a read followed by a save, not one write: whatever was saved in between, it stores the scope,
      the flags and the payload that were read, except for the vector and the feedback. */
  lemma ApprovalStoresWhatWasRead(rows: Table, read: Row, target: string, confirmed: Json, nonce: int)
    requires AllSound(rows) && Sound(read) && read.bound.id in rows
    ensures var stored, edited := Approve(rows, read, target, confirmed, nonce), rows[read.bound.id];
            && SameButFor(stored, read, {EMBEDDING, FEEDBACK, CONFIRMED})
            && stored.bound == Bound(read.bound.id, Approved, read.bound.scope, target, edited.bound.revision + 1)
            && Get(Open(stored).value, EMBEDDING) == Get(Open(edited).value, EMBEDDING)
            && Get(Open(stored).value, FEEDBACK) == Get(Open(edited).value, FEEDBACK)
            && Get(Open(stored).value, CONFIRMED) == confirmed
  {
  }

  /** Approval keeps the memory as it is, but for its confirmation, exactly when nothing but the vector and the
      feedback differs from what was read; so it does when the row is still as read, flags included. */
  lemma ApprovalKeepsEditsIff(rows: Table, read: Row, target: string, confirmed: Json, nonce: int)
    requires AllSound(rows) && Sound(read) && read.bound.id in rows
    ensures var stored, edited := Approve(rows, read, target, confirmed, nonce), rows[read.bound.id];
            && (SameButFor(stored, edited, {CONFIRMED}) <==> SameButFor(edited, read, {EMBEDDING, FEEDBACK, CONFIRMED}))
            && (StillAsRead(rows, read) && edited.pinned == read.pinned && edited.stale == read.stale ==>
                  SameButFor(stored, edited, {CONFIRMED}))
  {
    ApprovalStoresWhatWasRead(rows, read, target, confirmed, nonce);
    if StillAsRead(rows, read) { SwapFindsTheRowRead(rows, read); }
    hide Approve, Get, Open;
    var stored, edited := Approve(rows, read, target, confirmed, nonce), rows[read.bound.id];
    if SameButFor(edited, read, {EMBEDDING, FEEDBACK, CONFIRMED}) {
      forall key | key !in {CONFIRMED} ensures Get(Open(stored).value, key) == Get(Open(edited).value, key) {
        if key !in {EMBEDDING, FEEDBACK, CONFIRMED} {
          assert Get(Open(stored).value, key) == Get(Open(read).value, key) == Get(Open(edited).value, key);
        }
      }
    }
    if SameButFor(stored, edited, {CONFIRMED}) {
      forall key | key !in {EMBEDDING, FEEDBACK, CONFIRMED}
        ensures Get(Open(edited).value, key) == Get(Open(read).value, key)
      {
        assert Get(Open(stored).value, key) == Get(Open(edited).value, key) == Get(Open(read).value, key);
      }
    }
  }

  /** When a search stores a vector between the read and the approval, the approved memory holds that vector
      under the model name that was read: the two belong together exactly when that name was the same. */
  lemma ApprovalCanMisnameTheVector(rows: Table, read: Row, model: string, vector: seq<real>, target: string, confirmed: Json,
                                    nonce: int, later: int)
    requires AllSound(rows) && Sound(read) && StillAsRead(rows, read)
    ensures var swapped := StoreEmbedding(rows, read, Open(read).value, model, vector, nonce);
            && AllSound(swapped) && read.bound.id in swapped
            && (var stored := Open(Approve(swapped, read, target, confirmed, later)).value;
                && Get(stored, EMBEDDING) == Vector(vector)
                && (Get(stored, EMBEDDING_MODEL) == Text(model) <==> Get(Open(read).value, EMBEDDING_MODEL) == Text(model)))
  {
    SwapChangesOnlyTheEmbedding(rows, read, model, vector, nonce);
    var swapped := StoreEmbedding(rows, read, Open(read).value, model, vector, nonce);
    ApprovalStoresWhatWasRead(swapped, read, target, confirmed, later);
    assert EMBEDDING != EMBEDDING_MODEL && EMBEDDING_MODEL !in {EMBEDDING, FEEDBACK, CONFIRMED};
  }

  // ----- Whole runs -----

  /** The stored rows and every row some reader has taken a copy of. */
  datatype Vault = Vault(rows: Table, copies: seq<Row>)

  datatype Action =
    | Saving(id: string, draft: Draft, nonce: int)
    | Feedback(id: string, outcome: string, nonce: int)
    | Deleting(id: string)
    | Superseding(id: string)
    | Reading(id: string)
    | Approving(k: nat, target: string, confirmed: Json, nonce: int)
    | Swapping(k: nat, model: string, vector: seq<real>, nonce: int)

  ghost predicate VaultSound(v: Vault)
  {
    AllSound(v.rows) && forall k :: 0 <= k < |v.copies| ==> Sound(v.copies[k])
  }

  function OrElse(t: Option<Table>, rows: Table): Table { if t.Some? then t.value else rows }

  /** One atomic action; a search or an approval spans a Reading and a later Swapping or Approving. */
  function Step(v: Vault, a: Action): Vault
  {
    match a
    case Saving(id, draft, nonce) => v.(rows := OrElse(Save(v.rows, id, draft, nonce), v.rows))
    case Feedback(id, outcome, nonce) => v.(rows := OrElse(GiveFeedback(v.rows, id, outcome, nonce), v.rows))
    case Deleting(id) => v.(rows := Delete(v.rows, id))
    case Superseding(id) => v.(rows := MarkStale(v.rows, id))
    case Reading(id) => if id in v.rows then v.(copies := v.copies + [v.rows[id]]) else v
    case Approving(k, target, confirmed, nonce) =>
      if k < |v.copies| && Sound(v.copies[k]) then
        var draft := ApprovalDraft(v.copies[k], target, confirmed);
        v.(rows := OrElse(Save(v.rows, v.copies[k].bound.id, draft, nonce), v.rows))
      else v
    case Swapping(k, model, vector, nonce) =>
      if k < |v.copies| && Sound(v.copies[k]) then
        v.(rows := StoreEmbedding(v.rows, v.copies[k], Open(v.copies[k]).value, model, vector, nonce))
      else v
  }

  function Run(v: Vault, actions: seq<Action>): Vault
    decreases |actions|
  {
    if actions == [] then v else Run(Step(v, actions[0]), actions[1..])
  }

  /** In a sound vault every action does what it is for. */
  lemma ActionsAct(v: Vault, a: Action)
    requires VaultSound(v)
    ensures match a
            case Saving(id, draft, nonce) => Some(Step(v, a).rows) == Save(v.rows, id, draft, nonce)
            case Feedback(id, outcome, nonce) => id in v.rows ==> Some(Step(v, a).rows) == GiveFeedback(v.rows, id, outcome, nonce)
            case Deleting(id) => Step(v, a).rows.Keys == v.rows.Keys - {id}
            case Superseding(id) => id in v.rows ==> id in Step(v, a).rows && Step(v, a).rows[id].stale
            case Reading(id) => Step(v, a).copies == if id in v.rows then v.copies + [v.rows[id]] else v.copies
            case Approving(k, target, confirmed, nonce) =>
              k < |v.copies| && v.copies[k].bound.id in v.rows ==>
                Step(v, a).rows == v.rows[v.copies[k].bound.id := Approve(v.rows, v.copies[k], target, confirmed, nonce)]
            case Swapping(k, model, vector, nonce) =>
              k < |v.copies| && StillAsRead(v.rows, v.copies[k]) ==>
                v.copies[k].bound.id in Step(v, a).rows
                && Open(Step(v, a).rows[v.copies[k].bound.id]) == Some(WithEmbedding(Open(v.copies[k]).value, model, vector))
  {
    match a
    case Saving(id, draft, nonce) => SaveKeepsSound(v.rows, id, draft, nonce);
    case Approving(k, target, confirmed, nonce) =>
      if k < |v.copies| { SaveKeepsSound(v.rows, v.copies[k].bound.id, ApprovalDraft(v.copies[k], target, confirmed), nonce); }
    case _ =>
  }

  lemma RunIsStepByStep(v: Vault, a: Action, actions: seq<Action>)
    ensures Run(v, []) == v && Run(v, [a] + actions) == Run(Step(v, a), actions)
  {
    assert ([a] + actions)[1..] == actions;
  }

  lemma StepKeepsSound(v: Vault, a: Action)
    requires VaultSound(v)
    ensures VaultSound(Step(v, a))
  {
    match a
    case Saving(id, draft, nonce) => SaveKeepsSound(v.rows, id, draft, nonce);
    case Approving(k, target, confirmed, nonce) =>
      if k < |v.copies| && Sound(v.copies[k]) {
        SaveKeepsSound(v.rows, v.copies[k].bound.id, ApprovalDraft(v.copies[k], target, confirmed), nonce);
      }
    case Swapping(k, model, vector, nonce) =>
      if k < |v.copies| && Sound(v.copies[k]) {
        SwapChangesOnlyTheEmbedding(v.rows, v.copies[k], model, vector, nonce);
      }
    case _ =>
  }

  /** Under any interleaving every stored row opens under its current columns. */
  lemma {:induction false} RowsStayOpenable(v: Vault, actions: seq<Action>)
    requires VaultSound(v)
    ensures VaultSound(Run(v, actions))
    decreases |actions|
  {
    if actions != [] {
      StepKeepsSound(v, actions[0]);
      RowsStayOpenable(Step(v, actions[0]), actions[1..]);
    }
  }

  /** The action writes the essence of this memory. */
  predicate Edits(v: Vault, a: Action, id: string)
  {
    match a
    case Saving(key, _, _) => key == id
    case Feedback(key, _, _) => key == id
    case Deleting(key) => key == id
    case Superseding(key) => key == id
    case Reading(_) => false
    case Approving(k, _, _, _) => k < |v.copies| && v.copies[k].bound.id == id
    case Swapping(_, _, _, _) => false
  }

  predicate NoEdits(v: Vault, actions: seq<Action>, id: string)
    decreases |actions|
  {
    actions == [] || (!Edits(v, actions[0], id) && NoEdits(Step(v, actions[0]), actions[1..], id))
  }

  lemma StepKeepsEssence(v: Vault, a: Action, id: string)
    requires VaultSound(v) && id in v.rows && !Edits(v, a, id)
    ensures id in Step(v, a).rows && Sound(Step(v, a).rows[id]) && Essence(Step(v, a).rows[id]) == Essence(v.rows[id])
  {
    StepKeepsSound(v, a);
    match a
    case Swapping(k, model, vector, nonce) =>
      if k < |v.copies| && Sound(v.copies[k]) {
        SwapChangesOnlyTheEmbedding(v.rows, v.copies[k], model, vector, nonce);
      }
    case _ =>
  }

  /** Edits are never lost to searches: whatever swaps, reads and edits of other memories follow, a
      memory keeps its columns, its flags and its payload apart from the embedding. */
  lemma {:induction false} EditsSurvive(v: Vault, actions: seq<Action>, id: string)
    requires VaultSound(v) && id in v.rows && NoEdits(v, actions, id)
    ensures var w := Run(v, actions);
            id in w.rows && Sound(w.rows[id]) && Essence(w.rows[id]) == Essence(v.rows[id])
    decreases |actions|
  {
    if actions != [] {
      StepKeepsSound(v, actions[0]);
      StepKeepsEssence(v, actions[0], id);
      EditsSurvive(Step(v, actions[0]), actions[1..], id);
    }
  }

  // ----- The vault -----

  class MemoryVault {
    var rows: Table

    constructor ()
      ensures rows == map[]
    {
      rows := map[];
    }

    method SaveMemory(id: string, draft: Draft, nonce: int) returns (saved: bool)
      requires AllSound(rows)
      modifies this
      ensures saved && AllSound(rows) && Some(rows) == Save(old(rows), id, draft, nonce)
    {
      var payload := draft.payload;
      var revision := 1;
      if id in rows {
        var previous := Open(rows[id]);
        if previous.None? { return false; }
        payload := payload + map key | key in CARRIED - draft.mentioned :: Get(previous.value, key);
        revision := rows[id].bound.revision + 1;
      }
      var bound := Bound(id, draft.status, draft.scope, draft.target, revision);
      SaveKeepsSound(rows, id, draft, nonce);
      rows := rows[id := Row(bound, nonce, Seal(nonce, bound, payload), draft.pinned, draft.stale)];
      saved := true;
    }

    method RecordFeedback(id: string, outcome: string, nonce: int) returns (recorded: bool)
      requires AllSound(rows)
      modifies this
      ensures AllSound(rows) && (recorded <==> id in old(rows))
      ensures if recorded then Some(rows) == GiveFeedback(old(rows), id, outcome, nonce) else rows == old(rows)
    {
      if id !in rows { return false; }
      var row := rows[id];
      var payload := Open(row);
      if payload.None? { return false; }
      rows := rows[id := Reseal(row, CountUp(payload.value, outcome), nonce)
                         .(stale := outcome == "incorrect" || row.stale)];
      recorded := true;
    }

    /** Reseals a vector without presenting indexing as a user edit: the swap lands only on the row that
        was read, and then changes nothing but its embedding. */
    method SwapEmbedding(read: Row, model: string, vector: seq<real>, nonce: int) returns (landed: bool)
      requires AllSound(rows) && Sound(read)
      modifies this
      ensures AllSound(rows) && rows.Keys == old(rows).Keys
      ensures landed <==> StillAsRead(old(rows), read)
      ensures forall id :: id in rows ==> Essence(rows[id]) == Essence(old(rows)[id])
      ensures forall id :: id in rows && !(landed && id == read.bound.id) ==> rows[id] == old(rows)[id]
      ensures landed ==> Open(rows[read.bound.id]) == Some(WithEmbedding(Open(old(rows)[read.bound.id]).value, model, vector))
    {
      var payload := Open(read).value;
      SwapChangesOnlyTheEmbedding(rows, read, model, vector, nonce);
      var ciphertext := Seal(nonce, read.bound, WithEmbedding(payload, model, vector));
      var id := read.bound.id;
      landed := id in rows && rows[id].bound.revision == read.bound.revision
                && rows[id].nonce == read.nonce && rows[id].ciphertext == read.ciphertext;
      if landed {
        rows := rows[id := rows[id].(nonce := nonce, ciphertext := ciphertext)];
      }
    }

    method DeleteMemory(id: string) returns (deleted: bool)
      requires AllSound(rows)
      modifies this
      ensures AllSound(rows) && rows == Delete(old(rows), id) && (deleted <==> id in old(rows))
    {
      deleted := id in rows;
      rows := map key | key in rows && key != id :: rows[key];
    }
  }
}
