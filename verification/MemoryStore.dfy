/** The agent memory store: a batch of five operations over live rows, tombstones and audit links, applied as
    one transaction on behalf of one writer. */
module MemoryStore {
  import opened Options

  datatype Kind = Decision | Preference | Overrule | Habit | Revision
  datatype Scope = Shared | Private
  datatype Status = Open | Moving | Settled
  datatype SourceKind = FromRun | FromOperator | FromBackfill
  datatype Cause = Superseded | ByOperator | Invalidated
  datatype Relation = Supersedes | Revises

  const SHARED_WRITER := "STEWARD"

  datatype Row = Row(scope: Scope, owner: Option<string>, kind: Kind, content: string, status: Option<Status>,
                     salience: int, subject: Option<string>, source: Context, created: int, updated: int,
                     references: nat)

  datatype Tombstone = Tombstone(scope: Scope, owner: Option<string>, content: string, deleted: int, cause: Cause,
                                 successor: Option<nat>)

  datatype Link = Link(from: nat, to: nat, relation: Relation)

  datatype Context = Context(writer: string, sourceKind: SourceKind, run: Option<string>)

  /** The tables; `next` is the id the next insert gets. */
  datatype Db = Db(rows: map<nat, Row>, tombstones: map<nat, Tombstone>, links: set<Link>, next: nat)

  // ---- operations as they arrive ----

  datatype OpName = Add | Update | Supersede | Revise | Touch | Other

  /** A field that must name one of a list. */
  datatype Choice<T> = Absent | Bad | Is(value: T)

  datatype Number = NoNumber | NotNumeric | Num(value: int)

  datatype RevisionCause = NewEvidence | ReasoningFlaw

  /** An operation after its fields were read as text, numbers or choices; texts are trimmed. */
  datatype RawOp =
    | NotObject
    | Op(name: OpName, id: Option<int>, kind: Choice<Kind>, content: Option<string>, status: Choice<Status>,
         salience: Number,
         subject: Option<string>, owner: Option<string>, cause: Choice<RevisionCause>, detail: string)

  datatype Reason =
    | UnknownOp | InvalidKind | InvalidStatus | EmptyContent | NotFound | ScopeViolation | ForbiddenContent
    | MissingRevisionCause | InvalidSalience

  datatype Outcome = Added | Updated | Replaced | Revised | Touched | Rejected(reason: Reason)

  function ScopeForKind(kind: Kind): Scope { if kind == Decision || kind == Preference then Shared else Private }

  /** Out of range is clamped, absent is 3, not a number is refused. */
  function ClampSalience(n: Number): (r: Option<int>)
    ensures r.Some? ==> 1 <= r.value <= 5
    ensures r == None <==> n.NotNumeric?
  {
    match n
    case NoNumber => Some(3)
    case NotNumeric => None
    case Num(v) => Some(if v < 1 then 1 else if v > 5 then 5 else v)
  }

  /** Whom a row belongs to: the shared rows to one writer, a private row to its owner. */
  predicate MayWrite(writer: string, scope: Scope, owner: Option<string>) {
    if scope == Shared then writer == SHARED_WRITER else owner == Some(writer)
  }

  // ---- one operation ----

  function InsertRow(d: Db, row: Row): Db { d.(rows := d.rows[d.next := row], next := d.next + 1) }

  /** The row goes, its tombstone and, if it has a successor, the audit edge stay. */
  function SupersedeCore(d: Db, id: nat, successor: Option<nat>, cause: Cause, t: int): Db
    requires id in d.rows
  {
    var row := d.rows[id];
    Db(d.rows - {id}, d.tombstones[id := Tombstone(row.scope, row.owner, row.content, t, cause, successor)],
       if successor.Some? then d.links + {Link(successor.value, id, Supersedes)} else d.links, d.next)
  }

  /** Why the row an operation names cannot be written, if it cannot. */
  function LoadWritable(d: Db, op: RawOp, ctx: Context): (r: Option<Reason>)
    requires op.Op?
    ensures r == None <==> op.id.Some? && op.id.value >= 0 && op.id.value in d.rows
                           && MayWrite(ctx.writer, d.rows[op.id.value].scope, d.rows[op.id.value].owner)
  {
    if op.id == None || op.id.value < 0 || op.id.value !in d.rows then Some(NotFound)
    else
      var row := d.rows[op.id.value];
      if row.scope == Shared && ctx.writer != SHARED_WRITER then Some(ScopeViolation)
      else if row.scope == Private && row.owner != Some(ctx.writer) then Some(ScopeViolation)
      else None
  }

  function OrElse<T>(a: Option<T>, b: Option<T>): Option<T> { if a.Some? then a else b }

  function Chosen<T>(c: Choice<T>): Option<T> { if c.Is? then Some(c.value) else None }

  function ApplyAdd(d: Db, op: RawOp, ctx: Context, t: int, forbidden: string -> bool): (Db, Outcome)
    requires op.Op?
  {
    if !op.kind.Is? then (d, Rejected(InvalidKind))
    else if op.content == None || op.content.value == "" then (d, Rejected(EmptyContent))
    else if forbidden(op.content.value) then (d, Rejected(ForbiddenContent))
    else if op.status.Bad? then (d, Rejected(InvalidStatus))
    else
      var scope := ScopeForKind(op.kind.value);
      if scope == Shared && (ctx.writer != SHARED_WRITER || op.owner.Some?) then (d, Rejected(ScopeViolation))
      else if scope == Private && op.owner.Some? && op.owner.value != ctx.writer then (d, Rejected(ScopeViolation))
      else
        var salience := ClampSalience(op.salience);
        if salience == None then (d, Rejected(InvalidSalience))
        else
          (InsertRow(d, Row(scope, if scope == Shared then None else Some(ctx.writer), op.kind.value, op.content.value,
                            Chosen(op.status), salience.value, op.subject, ctx, t, t, 0)), Added)
  }

  function ApplyUpdate(d: Db, op: RawOp, ctx: Context, t: int, forbidden: string -> bool): (Db, Outcome)
    requires op.Op?
  {
    var refused := LoadWritable(d, op, ctx);
    if refused.Some? then (d, Rejected(refused.value))
    else if op.content == Some("") then (d, Rejected(EmptyContent))
    else if op.content.Some? && forbidden(op.content.value) then (d, Rejected(ForbiddenContent))
    else if op.status.Bad? then (d, Rejected(InvalidStatus))
    else if op.salience.NotNumeric? then (d, Rejected(InvalidSalience))
    else
      var row := d.rows[op.id.value];
      var salience := if op.salience.NoNumber? then row.salience else ClampSalience(op.salience).value;
      (d.(rows := d.rows[op.id.value := row.(content := if op.content.Some? then op.content.value else row.content,
                                             status := OrElse(Chosen(op.status), row.status), salience := salience,
                                             subject := OrElse(op.subject, row.subject), updated := t)]), Updated)
  }

  function ApplySupersede(d: Db, op: RawOp, ctx: Context, t: int, forbidden: string -> bool): (Db, Outcome)
    requires op.Op?
  {
    var refused := LoadWritable(d, op, ctx);
    if refused.Some? then (d, Rejected(refused.value))
    else if op.content == None || op.content.value == "" then (d, Rejected(EmptyContent))
    else if forbidden(op.content.value) then (d, Rejected(ForbiddenContent))
    else if op.kind.Bad? then (d, Rejected(InvalidKind))
    else
      var row := d.rows[op.id.value];
      var kind := if op.kind.Is? then op.kind.value else row.kind;
      if ScopeForKind(kind) != row.scope then (d, Rejected(ScopeViolation))
      else if op.status.Bad? then (d, Rejected(InvalidStatus))
      else if op.salience.NotNumeric? then (d, Rejected(InvalidSalience))
      else
        var salience := if op.salience.NoNumber? then row.salience else ClampSalience(op.salience).value;
        var d' := InsertRow(d,
                            Row(row.scope, row.owner, kind, op.content.value, OrElse(Chosen(op.status), row.status),
                                salience,
                                   OrElse(op.subject, row.subject), ctx, t, t, 0));
        (SupersedeCore(d', op.id.value, Some(d.next), Superseded, t), Replaced)
  }

  function CauseText(c: RevisionCause): string { if c == NewEvidence then "new_evidence" else "reasoning_flaw" }

  /** A change of position: recorded beside the row, in the writer's own private scope. */
  function ApplyRevise(d: Db, op: RawOp, ctx: Context, t: int, forbidden: string -> bool): (Db, Outcome)
    requires op.Op?
  {
    var refused := LoadWritable(d, op, ctx);
    if refused.Some? then (d, Rejected(refused.value))
    else if !op.cause.Is? || op.detail == "" then (d, Rejected(MissingRevisionCause))
    else if forbidden(op.detail) then (d, Rejected(ForbiddenContent))
    else
      var row := Row(Private, Some(ctx.writer), Revision, op.detail, Some(Settled), d.rows[op.id.value].salience,
                     Some(CauseText(op.cause.value)), ctx, t, t, 0);
      (InsertRow(d, row).(links := d.links + {Link(d.next, op.id.value, Revises)}), Revised)
  }

  function ApplyTouch(d: Db, op: RawOp, ctx: Context, t: int): (Db, Outcome)
    requires op.Op?
  {
    var refused := LoadWritable(d, op, ctx);
    if refused.Some? then (d, Rejected(refused.value))
    else
      var row := d.rows[op.id.value];
      (d.(rows := d.rows[op.id.value := row.(references := row.references + 1, updated := t)]), Touched)
  }

  function ApplyOp(d: Db, op: RawOp, ctx: Context, t: int, forbidden: string -> bool): (Db, Outcome)
  {
    if op.NotObject? then (d, Rejected(UnknownOp))
    else
      match op.name
      case Add => ApplyAdd(d, op, ctx, t, forbidden)
      case Update => ApplyUpdate(d, op, ctx, t, forbidden)
      case Supersede => ApplySupersede(d, op, ctx, t, forbidden)
      case Revise => ApplyRevise(d, op, ctx, t, forbidden)
      case Touch => ApplyTouch(d, op, ctx, t)
      case Other => (d, Rejected(UnknownOp))
  }

  // ---- what always holds ----

  predicate RowOk(r: Row, forbidden: string -> bool) {
    && r.scope == ScopeForKind(r.kind) && (r.owner == None <==> r.scope == Shared)
    && 1 <= r.salience <= 5 && r.content != "" && !forbidden(r.content)
  }

  /** Scope and owner of an id, live or not. */
  function Belongs(d: Db, id: nat): (Scope, Option<string>)
    requires id in d.rows || id in d.tombstones
  {
    if id in d.rows then (d.rows[id].scope, d.rows[id].owner) else (d.tombstones[id].scope, d.tombstones[id].owner)
  }

  /** Every id ever allocated is either live or has a tombstone, never both. */
  ghost predicate IdsOk(d: Db) {
    && d.next > 0 && d.rows.Keys !! d.tombstones.Keys
    && forall id: nat :: 0 < id < d.next <==> id in d.rows || id in d.tombstones
  }

  /** Supersedes edges and tombstones with a successor are the same relation; it leads to a later id of the
      same scope and owner. */
  ghost predicate LinksOk(d: Db) {
    && (forall l | l in d.links && l.relation == Supersedes ::
          l.to in d.tombstones && d.tombstones[l.to].successor == Some(l.from))
    && (forall l | l in d.links && l.relation == Revises :: 0 < l.to < l.from < d.next)
    && (forall id | id in d.tombstones && d.tombstones[id].successor.Some? ::
          var s := d.tombstones[id].successor.value;
          && Link(s, id, Supersedes) in d.links && id < s && (s in d.rows || s in d.tombstones)
          && Belongs(d, s) == Belongs(d, id))
  }

  ghost predicate DbOk(d: Db, forbidden: string -> bool) {
    && IdsOk(d) && LinksOk(d)
    && (forall id | id in d.rows :: RowOk(d.rows[id], forbidden))
    && (forall id | id in d.tombstones :: id !in d.rows)
  }

  // ---- what one operation may do ----

  lemma InsertOk(d: Db, row: Row, forbidden: string -> bool)
    requires DbOk(d, forbidden) && RowOk(row, forbidden)
    ensures DbOk(InsertRow(d, row), forbidden)
    ensures InsertRow(d, row).rows.Keys == d.rows.Keys + {d.next}
  {
  }

  lemma SupersedeOk(d: Db, id: nat, successor: Option<nat>, cause: Cause, t: int, forbidden: string -> bool)
    requires DbOk(d, forbidden) && id in d.rows
    requires successor.Some? ==>
               id < successor.value && successor.value in d.rows && Belongs(d, successor.value) == Belongs(d, id)
    ensures DbOk(SupersedeCore(d, id, successor, cause, t), forbidden)
  {
    hide RowOk, LinksOk, Belongs;
    SupersedeBelongs(d, id, successor, cause, t);
    SupersedeLinks(d, id, successor, cause, t);
  }

  lemma SupersedeBelongs(d: Db, id: nat, successor: Option<nat>, cause: Cause, t: int)
    requires id in d.rows && d.rows.Keys !! d.tombstones.Keys
    ensures var u := SupersedeCore(d, id, successor, cause, t);
            forall k | k in d.rows || k in d.tombstones ::
              (k in u.rows || k in u.tombstones) && Belongs(u, k) == Belongs(d, k)
  {
  }

  lemma SupersedeLinks(d: Db, id: nat, successor: Option<nat>, cause: Cause, t: int)
    requires LinksOk(d) && id in d.rows && d.rows.Keys !! d.tombstones.Keys
    requires successor.Some? ==>
               id < successor.value && successor.value in d.rows && Belongs(d, successor.value) == Belongs(d, id)
    requires var u := SupersedeCore(d, id, successor, cause, t);
             forall k | k in d.rows || k in d.tombstones ::
               (k in u.rows || k in u.tombstones) && Belongs(u, k) == Belongs(d, k)
    ensures LinksOk(SupersedeCore(d, id, successor, cause, t))
  {
    hide Belongs;
  }

  lemma RewriteOk(d: Db, id: nat, row: Row, forbidden: string -> bool)
    requires DbOk(d, forbidden) && id in d.rows && RowOk(row, forbidden)
    requires (row.scope, row.owner) == (d.rows[id].scope, d.rows[id].owner)
    ensures DbOk(d.(rows := d.rows[id := row]), forbidden)
  {
    hide RowOk;
    var u := d.(rows := d.rows[id := row]);
    forall k | k in d.rows || k in d.tombstones
      ensures Belongs(u, k) == Belongs(d, k)
    {
    }
  }

  lemma RevisesOk(d: Db, l: Link, forbidden: string -> bool)
    requires DbOk(d, forbidden) && l.relation == Revises && 0 < l.to < l.from < d.next
    ensures DbOk(d.(links := d.links + {l}), forbidden)
  {
    hide RowOk, IdsOk;
    var u := d.(links := d.links + {l});
    assert IdsOk(u) by { IdsFrame(d, u); }
    forall k | k in d.rows || k in d.tombstones
      ensures Belongs(u, k) == Belongs(d, k)
    {
    }
  }

  lemma IdsFrame(d: Db, u: Db)
    requires IdsOk(d) && u.rows.Keys == d.rows.Keys && u.tombstones == d.tombstones && u.next == d.next
    ensures IdsOk(u)
  {
  }

  lemma AddKeepsOk(d: Db, op: RawOp, ctx: Context, t: int, forbidden: string -> bool)
    requires DbOk(d, forbidden) && op.Op?
    ensures DbOk(ApplyAdd(d, op, ctx, t, forbidden).0, forbidden)
  {
    var r := ApplyAdd(d, op, ctx, t, forbidden);
    if r.1 == Added {
      InsertOk(d, r.0.rows[d.next], forbidden);
      hide DbOk;
    }
  }

  lemma UpdateKeepsOk(d: Db, op: RawOp, ctx: Context, t: int, forbidden: string -> bool)
    requires DbOk(d, forbidden) && op.Op?
    ensures DbOk(ApplyUpdate(d, op, ctx, t, forbidden).0, forbidden)
  {
    var r := ApplyUpdate(d, op, ctx, t, forbidden);
    if r.1 == Updated {
      var id := op.id.value;
      assert RowOk(d.rows[id], forbidden);
      RewriteOk(d, id, r.0.rows[id], forbidden);
      hide DbOk;
    }
  }

  lemma TouchKeepsOk(d: Db, op: RawOp, ctx: Context, t: int, forbidden: string -> bool)
    requires DbOk(d, forbidden) && op.Op?
    ensures DbOk(ApplyTouch(d, op, ctx, t).0, forbidden)
  {
    var r := ApplyTouch(d, op, ctx, t);
    if r.1 == Touched {
      var id := op.id.value;
      assert RowOk(d.rows[id], forbidden);
      RewriteOk(d, id, r.0.rows[id], forbidden);
      hide DbOk;
    }
  }

  lemma SupersedeKeepsOk(d: Db, op: RawOp, ctx: Context, t: int, forbidden: string -> bool)
    requires DbOk(d, forbidden) && op.Op?
    ensures d.next !in d.rows && DbOk(ApplySupersede(d, op, ctx, t, forbidden).0, forbidden)
  {
    var r := ApplySupersede(d, op, ctx, t, forbidden);
    if r.1 == Replaced {
      var id := op.id.value;
      assert RowOk(d.rows[id], forbidden) && id < d.next;
      var row := r.0.rows[d.next];
      var d' := InsertRow(d, row);
      InsertOk(d, row, forbidden);
      assert Belongs(d', d.next) == Belongs(d', id);
      hide DbOk;
      SupersedeOk(d', id, Some(d.next), Superseded, t, forbidden);
    }
  }

  lemma ReviseKeepsOk(d: Db, op: RawOp, ctx: Context, t: int, forbidden: string -> bool)
    requires DbOk(d, forbidden) && op.Op?
    ensures DbOk(ApplyRevise(d, op, ctx, t, forbidden).0, forbidden)
  {
    var r := ApplyRevise(d, op, ctx, t, forbidden);
    if r.1 == Revised {
      var id := op.id.value;
      assert RowOk(d.rows[id], forbidden) && 0 < id < d.next;
      InsertOk(d, r.0.rows[d.next], forbidden);
      hide DbOk;
      RevisesOk(InsertRow(d, r.0.rows[d.next]), Link(d.next, id, Revises), forbidden);
    }
  }

  /** Whatever the operation, the tables stay in order. */
  lemma OpKeepsOk(d: Db, op: RawOp, ctx: Context, t: int, forbidden: string -> bool)
    requires DbOk(d, forbidden)
    ensures d.next !in d.rows && DbOk(ApplyOp(d, op, ctx, t, forbidden).0, forbidden)
  {
    hide LinksOk, RowOk, ApplyAdd, ApplyUpdate, ApplySupersede, ApplyRevise, ApplyTouch;
    if op.Op? {
      match op.name
      case Add => AddKeepsOk(d, op, ctx, t, forbidden);
      case Update => UpdateKeepsOk(d, op, ctx, t, forbidden);
      case Supersede => SupersedeKeepsOk(d, op, ctx, t, forbidden);
      case Revise => ReviseKeepsOk(d, op, ctx, t, forbidden);
      case Touch => TouchKeepsOk(d, op, ctx, t, forbidden);
      case Other =>
    }
  }

  /** Every row an operation adds, removes or changes is one its writer may write; what it changes keeps id,
      kind, scope, owner, source and time of creation; tombstones and links are only ever added. */
  ghost predicate Isolated(d: Db, u: Db, writer: string) {
    && (forall id | id in u.rows && id !in d.rows ::
          id >= d.next && MayWrite(writer, u.rows[id].scope, u.rows[id].owner))
    && (forall id | id in d.rows && id !in u.rows ::
          id in u.tombstones && MayWrite(writer, d.rows[id].scope, d.rows[id].owner))
    && (forall id | id in d.rows && id in u.rows && u.rows[id] != d.rows[id] ::
          && MayWrite(writer, d.rows[id].scope, d.rows[id].owner)
          && Kept(d.rows[id], u.rows[id]))
    && (forall id | id in d.tombstones :: id in u.tombstones && u.tombstones[id] == d.tombstones[id])
    && d.links <= u.links
  }

  /** What became of the tables, by outcome: nothing, one new row, one row rewritten in place, or one new row
      standing for another. */
  ghost predicate Effect(d: Db, op: RawOp, u: Db, r: Outcome, writer: string) {
    match r
    case Rejected(_) => u == d
    case Added => InsertedOnly(d, u, writer) && u.links == d.links
    case Revised =>
      InsertedOnly(d, u, writer) && op.Op? && op.id.Some? && op.id.value in d.rows
      && u.links == d.links + {Link(d.next, op.id.value, Revises)}
    case Replaced =>
      && op.Op? && op.id.Some? && op.id.value in d.rows && d.next in u.rows && d.next != op.id.value
      && var id, n := op.id.value, u.rows[d.next];
         && MayWrite(writer, n.scope, n.owner) && (n.scope, n.owner) == (d.rows[id].scope, d.rows[id].owner)
         && u.rows == d.rows[d.next := n] - {id} && u.next == d.next + 1
         && id in u.tombstones && u.tombstones == d.tombstones[id := u.tombstones[id]]
         && u.links == d.links + {Link(d.next, id, Supersedes)}
    case _ =>
      && op.Op? && op.id.Some? && op.id.value in d.rows && op.id.value in u.rows
      && var id := op.id.value;
         && u == d.(rows := d.rows[id := u.rows[id]]) && MayWrite(writer, d.rows[id].scope, d.rows[id].owner)
         && Kept(d.rows[id], u.rows[id])
  }

  ghost predicate InsertedOnly(d: Db, u: Db, writer: string) {
    && d.next in u.rows && u.rows == d.rows[d.next := u.rows[d.next]] && u.next == d.next + 1
    && u.tombstones == d.tombstones
    && MayWrite(writer, u.rows[d.next].scope, u.rows[d.next].owner)
  }

  /** What no rewriting in place touches. */
  predicate Kept(r: Row, n: Row) {
    (n.scope, n.owner, n.kind, n.source, n.created) == (r.scope, r.owner, r.kind, r.source, r.created)
  }

  lemma OpEffect(d: Db, op: RawOp, ctx: Context, t: int, forbidden: string -> bool)
    requires d.next !in d.rows
    ensures var (u, r) := ApplyOp(d, op, ctx, t, forbidden); Effect(d, op, u, r, ctx.writer)
  {
    if op.Op? {
      hide ClampSalience, ApplyAdd, ApplyUpdate, ApplySupersede, ApplyRevise, ApplyTouch, Effect;
      match op.name
      case Add => AddEffect(d, op, ctx, t, forbidden);
      case Update => UpdateEffect(d, op, ctx, t, forbidden);
      case Supersede => SupersedeEffect(d, op, ctx, t, forbidden);
      case Revise => ReviseEffect(d, op, ctx, t, forbidden);
      case Touch => TouchEffect(d, op, ctx, t);
      case Other => RejectedEffect(d, op, UnknownOp, ctx.writer);
    }
  }

  lemma RejectedEffect(d: Db, op: RawOp, reason: Reason, writer: string)
    ensures Effect(d, op, d, Rejected(reason), writer)
  {
  }

  lemma AddEffect(d: Db, op: RawOp, ctx: Context, t: int, forbidden: string -> bool)
    requires d.next !in d.rows && op.Op?
    ensures var (u, r) := ApplyAdd(d, op, ctx, t, forbidden); Effect(d, op, u, r, ctx.writer)
  {
  }

  lemma UpdateEffect(d: Db, op: RawOp, ctx: Context, t: int, forbidden: string -> bool)
    requires op.Op?
    ensures var (u, r) := ApplyUpdate(d, op, ctx, t, forbidden); Effect(d, op, u, r, ctx.writer)
  {
  }

  lemma SupersedeEffect(d: Db, op: RawOp, ctx: Context, t: int, forbidden: string -> bool)
    requires d.next !in d.rows && op.Op?
    ensures var (u, r) := ApplySupersede(d, op, ctx, t, forbidden); Effect(d, op, u, r, ctx.writer)
  {
  }

  lemma ReviseEffect(d: Db, op: RawOp, ctx: Context, t: int, forbidden: string -> bool)
    requires d.next !in d.rows && op.Op?
    ensures var (u, r) := ApplyRevise(d, op, ctx, t, forbidden); Effect(d, op, u, r, ctx.writer)
  {
  }

  lemma TouchEffect(d: Db, op: RawOp, ctx: Context, t: int)
    requires op.Op?
    ensures var (u, r) := ApplyTouch(d, op, ctx, t); Effect(d, op, u, r, ctx.writer)
  {
  }

  lemma OpIsolated(d: Db, op: RawOp, ctx: Context, t: int, forbidden: string -> bool)
    requires DbOk(d, forbidden)
    ensures d.next !in d.rows && Isolated(d, ApplyOp(d, op, ctx, t, forbidden).0, ctx.writer)
  {
    hide LinksOk, RowOk, ApplyOp;
    OpEffect(d, op, ctx, t, forbidden);
  }

  /** How each outcome moves the number of rows, tombstones and ids. */
  ghost predicate Counted(d: Db, u: Db, r: Outcome) {
    && |u.rows| == |d.rows| + (if r == Added || r == Revised then 1 else 0)
    && |u.tombstones| == |d.tombstones| + (if r == Replaced then 1 else 0)
    && u.next == d.next + (if r == Added || r == Revised || r == Replaced then 1 else 0)
  }

  lemma EffectCounts(d: Db, op: RawOp, u: Db, r: Outcome, writer: string)
    requires Effect(d, op, u, r, writer) && d.next !in d.rows && d.rows.Keys !! d.tombstones.Keys
    ensures Counted(d, u, r)
  {
    hide MayWrite, Kept;
    if r == Added || r == Revised {
      InsertedCounts(d, u);
    } else if r == Replaced {
      ReplacedCounts(d, op.id.value, u);
    } else if !r.Rejected? {
      RewrittenCounts(d, op.id.value, u);
    }
    hide Effect;
  }

  lemma InsertedCounts(d: Db, u: Db)
    requires d.next !in d.rows && d.next in u.rows && u.rows == d.rows[d.next := u.rows[d.next]]
    ensures |u.rows| == |d.rows| + 1
  {
    assert u.rows.Keys == d.rows.Keys + {d.next};
  }

  lemma RewrittenCounts(d: Db, id: nat, u: Db)
    requires id in d.rows && id in u.rows && u.rows == d.rows[id := u.rows[id]]
    ensures |u.rows| == |d.rows|
  {
    assert u.rows.Keys == d.rows.Keys;
  }

  lemma ReplacedCounts(d: Db, id: nat, u: Db)
    requires d.next !in d.rows && id in d.rows && id !in d.tombstones && d.next in u.rows && id in u.tombstones
    requires u.rows == d.rows[d.next := u.rows[d.next]] - {id} && u.tombstones == d.tombstones[id := u.tombstones[id]]
    ensures |u.rows| == |d.rows| && |u.tombstones| == |d.tombstones| + 1
  {
    assert u.rows.Keys == d.rows.Keys + {d.next} - {id};
    assert u.tombstones.Keys == d.tombstones.Keys + {id};
  }

  lemma OpCounts(d: Db, op: RawOp, ctx: Context, t: int, forbidden: string -> bool)
    requires DbOk(d, forbidden)
    ensures d.next !in d.rows
    ensures var (u, r) := ApplyOp(d, op, ctx, t, forbidden); Counted(d, u, r)
  {
    OpEffect(d, op, ctx, t, forbidden);
    hide LinksOk, RowOk, ApplyOp, Effect;
    var (u, r) := ApplyOp(d, op, ctx, t, forbidden);
    EffectCounts(d, op, u, r, ctx.writer);
  }

  // ---- what is stored ----

  /** What was given, or what was there before if nothing was. */
  predicate Takes<T(==)>(given: Option<T>, before: T, now: T) {
    (given == Some(now)) || (given == None && now == before)
  }

  predicate TakesChoice<T(==)>(given: Choice<T>, before: T, now: T) {
    given == Is(now) || (given == Absent && now == before)
  }

  /** As `Takes`, brought into range. */
  predicate TakesSalience(given: Number, before: int, now: int) {
    && (given.NoNumber? ==> now == before)
    && (given.Num? ==>
        1 <= now <= 5 && (now > 1 ==> given.value >= now) && (now < 5 ==> given.value <= now))
  }

  /** A new row of the writer's: from `source`, of time `t`, not yet shown to anyone. */
  predicate IsNew(n: Row, source: Context, t: int) {
    n.source == source && n.created == t && n.updated == t && n.references == 0
  }

  /** What an accepted operation leaves behind: each field as given, and where nothing was given the one there was. */
  ghost predicate Stored(d: Db, op: RawOp, u: Db, r: Outcome, ctx: Context, t: int) {
    !r.Rejected? ==>
      && op.Op?
      && (r.Added? ==>
            && op.name == Add && d.next in u.rows
            && var n := u.rows[d.next];
               && op.kind == Is(n.kind) && op.content == Some(n.content) && n.subject == op.subject && IsNew(n, ctx, t)
               && (if n.kind == Decision || n.kind == Preference then n.scope == Shared && n.owner == None
                   else n.scope == Private && n.owner == Some(ctx.writer))
               && (if n.status.Some? then op.status == Is(n.status.value) else op.status == Absent)
               && TakesSalience(op.salience, 3, n.salience))
      && (r.Revised? ==>
            && op.name == Revise && d.next in u.rows && op.id.Some? && op.id.value in d.rows
            && var n := u.rows[d.next];
               && (n.scope, n.owner, n.kind) == (Private, Some(ctx.writer), Revision) && IsNew(n, ctx, t)
               && n.content == op.detail && n.status == Some(Settled) && n.salience == d.rows[op.id.value].salience
               && (op.cause == Is(NewEvidence) ==> n.subject == Some("new_evidence"))
               && (op.cause == Is(ReasoningFlaw) ==> n.subject == Some("reasoning_flaw")))
      && (r.Updated? || r.Touched? || r.Replaced? ==>
            && op.id.Some? && op.id.value in d.rows
            && var id, row := op.id.value, d.rows[op.id.value];
               && (r.Updated? ==>
                     && op.name == Update && id in u.rows
                     && var n := u.rows[id];
                        && Kept(row, n) && n.updated == t && n.references == row.references
                        && Takes(op.content, row.content, n.content)
                        && TakesSalience(op.salience, row.salience, n.salience)
                        && n.subject == (if op.subject.Some? then op.subject else row.subject)
                        && (op.status.Is? ==> n.status == Some(op.status.value))
                        && (op.status == Absent ==> n.status == row.status))
               && (r.Touched? ==>
                     op.name == Touch && id in u.rows
                     && u.rows[id] == row.(references := row.references + 1, updated := t))
               && (r.Replaced? ==>
                     && op.name == Supersede && d.next in u.rows && id in u.tombstones
                     && u.tombstones[id] == Tombstone(row.scope, row.owner, row.content, t, Superseded, Some(d.next))
                     && var n := u.rows[d.next];
                        && (n.scope, n.owner) == (row.scope, row.owner) && IsNew(n, ctx, t)
                        && op.content == Some(n.content) && TakesChoice(op.kind, row.kind, n.kind)
                        && TakesSalience(op.salience, row.salience, n.salience)
                        && n.subject == (if op.subject.Some? then op.subject else row.subject)
                        && (op.status.Is? ==> n.status == Some(op.status.value))
                        && (op.status == Absent ==> n.status == row.status)))
  }

  lemma StoresAsGiven(d: Db, op: RawOp, ctx: Context, t: int, forbidden: string -> bool)
    requires d.next !in d.rows
    ensures var (u, r) := ApplyOp(d, op, ctx, t, forbidden); Stored(d, op, u, r, ctx, t)
  {
    if op.Op? {
      hide ApplyAdd, ApplyUpdate, ApplySupersede, ApplyRevise, ApplyTouch, Stored;
      match op.name
      case Add => AddStores(d, op, ctx, t, forbidden);
      case Update => UpdateStores(d, op, ctx, t, forbidden);
      case Supersede => SupersedeStores(d, op, ctx, t, forbidden);
      case Revise => ReviseStores(d, op, ctx, t, forbidden);
      case Touch => TouchStores(d, op, ctx, t);
      case Other => RefusedStores(d, op, UnknownOp, ctx, t);
    }
  }

  lemma RefusedStores(d: Db, op: RawOp, reason: Reason, ctx: Context, t: int)
    ensures Stored(d, op, d, Rejected(reason), ctx, t)
  {
  }

  lemma AddStores(d: Db, op: RawOp, ctx: Context, t: int, forbidden: string -> bool)
    requires op.Op? && op.name == Add
    ensures var (u, r) := ApplyAdd(d, op, ctx, t, forbidden); Stored(d, op, u, r, ctx, t)
  {
  }

  lemma UpdateStores(d: Db, op: RawOp, ctx: Context, t: int, forbidden: string -> bool)
    requires op.Op? && op.name == Update
    ensures var (u, r) := ApplyUpdate(d, op, ctx, t, forbidden); Stored(d, op, u, r, ctx, t)
  {
  }

  lemma SupersedeStores(d: Db, op: RawOp, ctx: Context, t: int, forbidden: string -> bool)
    requires op.Op? && op.name == Supersede && d.next !in d.rows
    ensures var (u, r) := ApplySupersede(d, op, ctx, t, forbidden); Stored(d, op, u, r, ctx, t)
  {
  }

  lemma ReviseStores(d: Db, op: RawOp, ctx: Context, t: int, forbidden: string -> bool)
    requires op.Op? && op.name == Revise && d.next !in d.rows
    ensures var (u, r) := ApplyRevise(d, op, ctx, t, forbidden); Stored(d, op, u, r, ctx, t)
  {
  }

  lemma TouchStores(d: Db, op: RawOp, ctx: Context, t: int)
    requires op.Op? && op.name == Touch
    ensures var (u, r) := ApplyTouch(d, op, ctx, t); Stored(d, op, u, r, ctx, t)
  {
  }

  // ---- chains of supersession ----

  /** Where following successors from `id` ends. */
  function ChainEnd(d: Db, id: nat): (r: nat)
    requires IdsOk(d) && LinksOk(d) && (id in d.rows || id in d.tombstones)
    ensures r >= id && Belongs(d, id) == if r in d.rows || r in d.tombstones then Belongs(d, r) else Belongs(d, id)
    ensures r in d.rows || (r in d.tombstones && d.tombstones[r].successor == None)
    decreases d.next - id
  {
    if id in d.tombstones && d.tombstones[id].successor.Some? then ChainEnd(d, d.tombstones[id].successor.value) else id
  }

  /** Superseding a live row moves the end of every chain that led to it, and of no other. */
  lemma {:induction false} SupersedeMovesEnds(d: Db, op: RawOp, ctx: Context, t: int, forbidden: string -> bool, k: nat)
    requires DbOk(d, forbidden) && (k in d.rows || k in d.tombstones) && op.Op?
    requires ApplySupersede(d, op, ctx, t, forbidden).1 == Replaced
    ensures var u := ApplySupersede(d, op, ctx, t, forbidden).0;
            && DbOk(u, forbidden) && (k in u.rows || k in u.tombstones)
            && ChainEnd(u, k) == if ChainEnd(d, k) == op.id.value then d.next else ChainEnd(d, k)
    decreases d.next - k
  {
    SupersedeKeepsOk(d, op, ctx, t, forbidden);
    SupersedeEffect(d, op, ctx, t, forbidden);
    var u, id := ApplySupersede(d, op, ctx, t, forbidden).0, op.id.value;
    assert u.tombstones[id].successor == Some(d.next);
    hide ApplySupersede, Kept, MayWrite, RowOk;
    if k in d.tombstones && d.tombstones[k].successor.Some? {
      SupersedeMovesEnds(d, op, ctx, t, forbidden, d.tombstones[k].successor.value);
    }
  }

  /** The same update a second time is accepted again and changes nothing. */
  lemma UpdateTwice(d: Db, op: RawOp, ctx: Context, t: int, forbidden: string -> bool)
    requires op.Op? && ApplyUpdate(d, op, ctx, t, forbidden).1 == Updated
    ensures ApplyUpdate(ApplyUpdate(d, op, ctx, t, forbidden).0, op, ctx, t, forbidden) ==
            ApplyUpdate(d, op, ctx, t, forbidden)
  {
    var u, id := ApplyUpdate(d, op, ctx, t, forbidden).0, op.id.value;
    assert u.rows[id := u.rows[id]] == u.rows;
  }

  /** Nothing is lost by superseding: the tombstone keeps the old text, the new row says the new one, and what
      the operation leaves out is inherited. */
  lemma SupersedeKeepsText(d: Db, op: RawOp, ctx: Context, t: int, forbidden: string -> bool)
    requires op.Op? && d.next !in d.rows && ApplySupersede(d, op, ctx, t, forbidden).1 == Replaced
    ensures var u, id := ApplySupersede(d, op, ctx, t, forbidden).0, op.id.value;
            && id in u.tombstones && u.tombstones[id].content == d.rows[id].content && id !in u.rows
            && d.next in u.rows && Some(u.rows[d.next].content) == op.content
            && (op.status == Absent && op.salience.NoNumber? && op.subject == None && op.kind == Absent ==>
                  && (u.rows[d.next].kind, u.rows[d.next].status, u.rows[d.next].salience, u.rows[d.next].subject)
                     == (d.rows[id].kind, d.rows[id].status, d.rows[id].salience, d.rows[id].subject))
  {
  }

  // ---- acceptance ----

  /** The same conditions without their order: what makes an operation acceptable. */
  predicate Acceptable(d: Db, op: RawOp, ctx: Context, forbidden: string -> bool) {
    op.Op? &&
    var target := op.id.Some? && op.id.value >= 0 && op.id.value in d.rows
                  && MayWrite(ctx.writer, d.rows[op.id.value].scope, d.rows[op.id.value].owner);
    var textOk := op.content.Some? && op.content.value != "" && !forbidden(op.content.value);
    match op.name
    case Add =>
      && op.kind.Is? && textOk && !op.status.Bad? && !op.salience.NotNumeric?
      && (if ScopeForKind(op.kind.value) == Shared then ctx.writer == SHARED_WRITER && op.owner == None
          else op.owner == None || op.owner == Some(ctx.writer))
    case Update => target && (op.content == None || textOk) && !op.status.Bad? && !op.salience.NotNumeric?
    case Supersede =>
      && target && textOk && !op.kind.Bad? && !op.status.Bad? && !op.salience.NotNumeric?
      && (op.kind.Is? ==> ScopeForKind(op.kind.value) == d.rows[op.id.value].scope)
    case Revise => target && op.cause.Is? && op.detail != "" && !forbidden(op.detail)
    case Touch => target
    case Other => false
  }

  lemma AcceptedExactly(d: Db, op: RawOp, ctx: Context, t: int, forbidden: string -> bool)
    requires DbOk(d, forbidden)
    ensures ApplyOp(d, op, ctx, t, forbidden).1.Rejected? <==> !Acceptable(d, op, ctx, forbidden)
  {
    assert op.Op? && op.id.Some? && op.id.value in d.rows ==> RowOk(d.rows[op.id.value], forbidden);
    hide DbOk;
  }

  /** What a refusal says is so. */
  predicate IsSo(reason: Reason, d: Db, op: RawOp, ctx: Context, forbidden: string -> bool) {
    var live := op.Op? && op.id.Some? && op.id.value >= 0 && op.id.value in d.rows;
    match reason
    case UnknownOp => op.NotObject? || op.name == Other
    case InvalidKind => op.Op? && (op.kind.Bad? || (op.name == Add && op.kind == Absent))
    case InvalidStatus => op.Op? && op.status.Bad?
    case InvalidSalience => op.Op? && op.salience.NotNumeric?
    case EmptyContent => op.Op? && (op.content == Some("") || (op.name != Update && op.content == None))
    case ForbiddenContent =>
      op.Op? && if op.name == Revise then forbidden(op.detail) else op.content.Some? && forbidden(op.content.value)
    case NotFound => op.Op? && op.name != Add && !live
    case MissingRevisionCause => op.Op? && op.name == Revise && (!op.cause.Is? || op.detail == "")
    case ScopeViolation =>
      && op.Op?
      && if op.name == Add then
           op.kind.Is? && (op.owner.Some? || ctx.writer != SHARED_WRITER)
           && (ScopeForKind(op.kind.value) == Private ==> op.owner != Some(ctx.writer))
         else
           live && var row := d.rows[op.id.value];
           !MayWrite(ctx.writer, row.scope, row.owner)
           || (op.name == Supersede && op.kind.Is? && ScopeForKind(op.kind.value) != row.scope)
  }

  lemma ReasonIsSo(d: Db, op: RawOp, ctx: Context, t: int, forbidden: string -> bool)
    requires DbOk(d, forbidden)
    ensures var (u, r) := ApplyOp(d, op, ctx, t, forbidden);
            r.Rejected? ==> u == d && IsSo(r.reason, d, op, ctx, forbidden)
  {
    assert op.Op? && op.id.Some? && op.id.value in d.rows ==> RowOk(d.rows[op.id.value], forbidden);
    hide DbOk;
  }

  // ---- a batch ----

  /** After the first `n` operations: the tables and each operation's outcome. */
  function RunTo(d: Db, ops: seq<RawOp>, n: nat, ctx: Context, t: int,
                 forbidden: string -> bool): (r: (Db, seq<Outcome>))
    requires n <= |ops|
    ensures |r.1| == n
  {
    if n == 0 then (d, [])
    else
      var (u, outcomes) := RunTo(d, ops, n - 1, ctx, t, forbidden);
      var (v, r) := ApplyOp(u, ops[n - 1], ctx, t, forbidden);
      (v, outcomes + [r])
  }

  function CountOf(os: seq<Outcome>, o: Outcome): nat {
    if os == [] then 0 else CountOf(os[..|os| - 1], o) + if os[|os| - 1] == o then 1 else 0
  }

  /** Which operations were refused, and why. */
  function Rejects(os: seq<Outcome>): seq<(nat, Reason)> {
    if os == [] then []
    else
      var n := |os| - 1;
      Rejects(os[..n]) + if os[n].Rejected? then [(n, os[n].reason)] else []
  }

  datatype Result = Result(added: nat, updated: nat, superseded: nat, revised: nat, touched: nat,
                           rejected: seq<(nat, Reason)>)

  /** The counters count the outcomes, and together with the refusals they account for every operation. */
  ghost predicate Tallied(r: Result, os: seq<Outcome>) {
    && r.added == CountOf(os, Added) && r.updated == CountOf(os, Updated) && r.superseded == CountOf(os, Replaced)
    && r.revised == CountOf(os, Revised) && r.touched == CountOf(os, Touched) && r.rejected == Rejects(os)
    && r.added + r.updated + r.superseded + r.revised + r.touched + |r.rejected| == |os|
  }

  function Noted(r: Result, i: nat, o: Outcome): Result {
    match o
    case Added => r.(added := r.added + 1)
    case Updated => r.(updated := r.updated + 1)
    case Replaced => r.(superseded := r.superseded + 1)
    case Revised => r.(revised := r.revised + 1)
    case Touched => r.(touched := r.touched + 1)
    case Rejected(reason) => r.(rejected := r.rejected + [(i, reason)])
  }

  lemma TallyOne(r: Result, os: seq<Outcome>, o: Outcome)
    requires Tallied(r, os)
    ensures Tallied(Noted(r, |os|, o), os + [o])
  {
    assert (os + [o])[..|os|] == os;
  }

  /** What a batch may do on the whole; the numbers of live rows and tombstones move as the counters say. */
  ghost predicate BatchOk(d: Db, u: Db, writer: string, r: Result, forbidden: string -> bool) {
    && DbOk(u, forbidden) && Isolated(d, u, writer)
    && |u.rows| == |d.rows| + r.added + r.revised && |u.tombstones| == |d.tombstones| + r.superseded
    && u.next == d.next + r.added + r.revised + r.superseded
  }

  lemma IsolatedTwice(d: Db, u: Db, v: Db, writer: string)
    requires Isolated(d, u, writer) && Isolated(u, v, writer) && d.next <= u.next && IdsOk(d)
    ensures Isolated(d, v, writer)
  {
    assert forall id | id in d.rows :: id < d.next;
    hide MayWrite, IdsOk;
  }

  lemma OneMore(d: Db, u: Db, op: RawOp, ctx: Context, t: int, r: Result, i: nat, forbidden: string -> bool)
    requires DbOk(d, forbidden) && BatchOk(d, u, ctx.writer, r, forbidden)
    ensures var (v, o) := ApplyOp(u, op, ctx, t, forbidden); BatchOk(d, v, ctx.writer, Noted(r, i, o), forbidden)
  {
    hide Isolated, ApplyOp, LinksOk, RowOk, IdsOk;
    var (v, o) := ApplyOp(u, op, ctx, t, forbidden);
    OpKeepsOk(u, op, ctx, t, forbidden);
    OpIsolated(u, op, ctx, t, forbidden);
    OpCounts(u, op, ctx, t, forbidden);
    IsolatedTwice(d, u, v, ctx.writer);
  }

  lemma EmptyBatch(d: Db, writer: string, forbidden: string -> bool)
    requires DbOk(d, forbidden)
    ensures BatchOk(d, d, writer, Result(0, 0, 0, 0, 0, []), forbidden)
  {
  }

  function CountId(ids: seq<int>, id: int): nat {
    if ids == [] then 0 else CountId(ids[..|ids| - 1], id) + if ids[|ids| - 1] == id then 1 else 0
  }

  /** `d` after the rows of `ids` were surfaced: nothing but their reference counts moved. */
  ghost predicate Surfaced(d: Db, u: Db, ids: seq<int>) {
    && u.rows.Keys == d.rows.Keys && u.tombstones == d.tombstones && u.links == d.links && u.next == d.next
    && forall id | id in d.rows :: u.rows[id] == d.rows[id].(references := d.rows[id].references + CountId(ids, id))
  }

  lemma SurfacedOne(d: Db, u: Db, ids: seq<int>, id: int)
    requires Surfaced(d, u, ids)
    ensures Surfaced(d,
                     if id >= 0 && id in u.rows
                     then u.(rows := u.rows[id := u.rows[id].(references := u.rows[id].references + 1)])
                     else u,
                     ids + [id])
  {
    hide CountId;
    forall k
      ensures CountId(ids + [id], k) == CountId(ids, k) + if k == id then 1 else 0
    {
      CountSnoc(ids, id, k);
    }
  }

  lemma CountSnoc(ids: seq<int>, id: int, k: int)
    ensures CountId(ids + [id], k) == CountId(ids, k) + if k == id then 1 else 0
  {
    assert (ids + [id])[..|ids|] == ids;
  }

  lemma SurfacedOk(d: Db, u: Db, ids: seq<int>, forbidden: string -> bool)
    requires DbOk(d, forbidden) && Surfaced(d, u, ids)
    ensures DbOk(u, forbidden)
  {
    IdsFrame(d, u);
    forall k | k in d.rows || k in d.tombstones
      ensures Belongs(u, k) == Belongs(d, k)
    {
    }
    hide IdsOk;
  }

  class MemoryStore {
    const forbidden: string -> bool
    var db: Db

    ghost predicate Valid()
      reads this
    {
      DbOk(db, forbidden)
    }

    constructor (forbidden: string -> bool)
      ensures Valid() && db == Db(map[], map[], {}, 1) && this.forbidden == forbidden
    {
      this.forbidden, db := forbidden, Db(map[], map[], {}, 1);
    }

    /** One batch on behalf of `ctx.writer`; `None` for `ops` is something that is not a list. `throwsAt` is the
        operation, if any, at which the database throws, or the number of operations if the commit after them does: then
        everything is rolled back and there is no result. */
    method ApplyOps(ops: Option<seq<RawOp>>, ctx: Context, t: int, throwsAt: Option<nat>)
      returns (result: Option<Result>, ghost outcomes: seq<Outcome>)
      requires Valid()
      modifies this`db
      ensures Valid()
      ensures ops == None ==> db == old(db) && result == Some(Result(0, 0, 0, 0, 0, [(0, UnknownOp)]))
      ensures result == None <==> ops.Some? && throwsAt.Some? && throwsAt.value <= |ops.value|
      ensures result == None ==> db == old(db)
      ensures ops.Some? && result.Some? ==>
                && (db, outcomes) == RunTo(old(db), ops.value, |ops.value|, ctx, t, forbidden)
                && Tallied(result.value, outcomes) && BatchOk(old(db), db, ctx.writer, result.value, forbidden)
    {
      hide DbOk, BatchOk, Tallied, ApplyOp, Noted;
      outcomes := [];
      if ops == None {
        return Some(Result(0, 0, 0, 0, 0, [(0, UnknownOp)])), [];
      }
      var before := db;
      var r := Result(0, 0, 0, 0, 0, []);
      EmptyBatch(db, ctx.writer, forbidden);
      var i := 0;
      assert Tallied(r, outcomes) by { EmptyTally(); }
      while i < |ops.value|
        invariant 0 <= i <= |ops.value| && before == old(db)
        invariant (db, outcomes) == RunTo(before, ops.value, i, ctx, t, forbidden)
        invariant Tallied(r, outcomes) && BatchOk(before, db, ctx.writer, r, forbidden)
        invariant throwsAt.Some? ==> i <= throwsAt.value
      {
        if throwsAt == Some(i) {
          db := before;
          return None, outcomes;
        }
        OneMore(before, db, ops.value[i], ctx, t, r, i, forbidden);
        var (u, o) := ApplyOp(db, ops.value[i], ctx, t, forbidden);
        TallyOne(r, outcomes, o);
        outcomes := outcomes + [o];
        r := Noted(r, i, o);
        db := u;
        i := i + 1;
      }
      if throwsAt == Some(i) {
        db := before;
        return None, outcomes;
      }
      BatchKeepsOk(before, db, ctx.writer, r, forbidden);
      result := Some(r);
    }

    /** The operator removes a row: it leaves a tombstone without a successor. */
    method DeleteMemory(id: int, cause: Cause, t: int) returns (found: bool)
      requires Valid()
      modifies this`db
      ensures Valid() && (found <==> id >= 0 && id in old(db).rows)
      ensures !found ==> db == old(db)
      ensures found ==>
                var row := old(db).rows[id];
                && db.rows == old(db).rows - {id} && db.links == old(db).links && db.next == old(db).next
                && db.tombstones ==
                   old(db).tombstones[id := Tombstone(row.scope, row.owner, row.content, t, cause, None)]
    {
      found := id >= 0 && id in db.rows;
      if !found { return; }
      SupersedeOk(db, id, None, cause, t, forbidden);
      db := SupersedeCore(db, id, None, cause, t);
      hide DbOk;
    }

    /** Rows were shown to an agent: only their reference counts move, so showing a row never makes it look
        more recent. */
    method MarkReferenced(ids: seq<int>)
      requires Valid()
      modifies this`db
      ensures Valid() && Surfaced(old(db), db, ids)
    {
      hide DbOk, Surfaced;
      SurfacedNone(db);
      var i := 0;
      while i < |ids|
        invariant 0 <= i <= |ids| && Surfaced(old(db), db, ids[..i])
      {
        SurfacedOne(old(db), db, ids[..i], ids[i]);
        assert ids[..i] + [ids[i]] == ids[..i + 1];
        if ids[i] >= 0 && ids[i] in db.rows {
          var id: nat := ids[i];
          db := db.(rows := db.rows[id := db.rows[id].(references := db.rows[id].references + 1)]);
        }
        i := i + 1;
      }
      assert ids[..|ids|] == ids;
      SurfacedOk(old(db), db, ids, forbidden);
    }
  }

  lemma SurfacedNone(d: Db)
    ensures Surfaced(d, d, [])
  {
  }

  lemma EmptyTally()
    ensures Tallied(Result(0, 0, 0, 0, 0, []), [])
  {
  }

  lemma BatchKeepsOk(d: Db, u: Db, writer: string, r: Result, forbidden: string -> bool)
    requires BatchOk(d, u, writer, r, forbidden)
    ensures DbOk(u, forbidden)
  {
  }
}
