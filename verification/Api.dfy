/**
 * The composite endpoint synchroniser and the request handlers as they are written: each handler
 * checks, updates the store and synchronises, in that order. Each is proved against the transition
 * of the same name in `Lifecycle`.
 */
module Api {
  import opened Prelude
  import opened FlowDsl
  import opened FlowDocs
  import opened RouteTable
  import opened RouteCheck
  import opened Restart
  import opened Lifecycle
  import PublishLog
  import Sessions
  import MqttLedger
  import MqttKeys
  import MqttRuns
  import H = HttpManager
  import Q = MqttManager
  import S = FlowStore

  class Composite {
    const http: H.Manager
    const mqtt: Q.Manager
    /** The DSLs whose last HTTP rebuild succeeded. */
    ghost var up: map<string, Dsl>
    /** The DSLs whose last rebuild of the published MQTT track succeeded. */
    ghost var mqttUp: map<string, Dsl>

    constructor (http: H.Manager, mqtt: Q.Manager)
      ensures this.http == http && this.mqtt == mqtt && up == map[] && mqttUp == map[]
    {
      this.http, this.mqtt, up, mqttUp := http, mqtt, map[], map[];
    }

    ghost predicate Valid()
      reads this, http, http.servers, mqtt
    {
      http.Valid() && Sessions.CountsExact(mqtt.sessions, mqtt.openCount)
    }

    /** The state of both managers beside a given store. */
    ghost function Beside(db: Db): Sys
      requires http.Aligned()
      reads this, http, http.servers, mqtt
    {
      Sys(db, http.View(), mqtt.View(), up, mqttUp)
    }

    ghost predicate IsOpen(f: string)
      reads mqtt
    {
      f != "" && Sessions.Openers(mqtt.sessions, f) != {}
    }

    method CheckHTTPRoutes(f: string, dsl: Dsl) returns (passes: bool)
      requires Valid()
      ensures passes <==> CheckPasses(http.View(), f, dsl.nodes)
    {
      hide H.Manager.Forward, CheckPasses, RouteTable.Inv;
      var v := http.CheckHTTPRoutes(f, Some(dsl));
      return v.Passes?;
    }

    /** HTTP first, then the published MQTT track. */
    method SyncFlow(ghost db: Db, f: string, published: Option<Dsl>, env: nat -> Env, dials: nat -> MqttLedger.Dial)
      returns (r: Reply)
      requires Valid() && f != ""
      modifies this, http, http.servers, mqtt
      ensures Valid() && fresh(http.servers - old(http.servers))
      ensures mqtt.sessions == old(mqtt.sessions) && mqtt.openCount == old(mqtt.openCount)
      ensures (Beside(db), r) == SyncBoth(old(Beside(db)), f, published, World(env, dials, IsOpen(f)))
    {
      hide H.Manager.Forward, RouteTable.SyncFlow, MqttLedger.SyncFlow, RouteTable.Inv, Sessions.CountsExact;
      var o := http.SyncFlow(f, published, env);
      up := UpAfter(up, f, published, o);
      if !o.Mounted? {
        return HttpFailed(o);
      }
      var ok := mqtt.SyncFlow(f, published, dials);
      mqttUp := MqttRuns.UpWith(mqttUp, f, published, ok);
      return if ok then Done else MqttFailed;
    }

    method SyncDraftIfOpen(ghost db: Db, f: string, published: Option<Dsl>, draft: Option<Dsl>,
        ghost env: nat -> Env, dials: nat -> MqttLedger.Dial)
      requires Valid() && f in db.flows && db.flows[f].published == published && db.flows[f].draft == draft
      modifies mqtt
      ensures Valid()
      ensures mqtt.sessions == old(mqtt.sessions) && mqtt.openCount == old(mqtt.openCount)
      ensures Beside(db) == DraftIfOpen(old(Beside(db)), f, World(env, dials, IsOpen(f)))
    {
      hide H.Manager.Forward, MqttLedger.SyncDraft, RouteTable.Inv, Sessions.CountsExact, Sessions.Openers;
      var ignored := mqtt.SyncDraftIfOpen(f, published, draft, dials);
    }

    /** Unload both HTTP and MQTT, published and draft. */
    method RemoveFlow(ghost db: Db, f: string)
      requires Valid()
      modifies this, http, http.servers, mqtt
      ensures Valid() && http.servers == old(http.servers)
      ensures mqtt.sessions == old(mqtt.sessions) && mqtt.openCount == old(mqtt.openCount)
      ensures Beside(db) == RemoveBoth(old(Beside(db)), f)
    {
      hide H.Manager.Forward, RouteTable.RemoveFlow, MqttLedger.RemoveTrack, RouteTable.Inv, Sessions.CountsExact;
      http.RemoveFlow(f);
      mqtt.RemoveTrack(MqttKeys.PUBLISHED, f);
      mqtt.RemoveTrack(MqttKeys.DRAFT, f);
      up, mqttUp := up - {f}, mqttUp - {f};
    }
  }

  /** A user may touch the listed flows; an administrator any. */
  class User {
    const id: string
    const admin: bool
    var flowIDs: seq<string>

    constructor (id: string, admin: bool, flowIDs: seq<string>)
      ensures this.id == id && this.admin == admin && this.flowIDs == flowIDs
    {
      this.id, this.admin, this.flowIDs := id, admin, flowIDs;
    }

    predicate Allows(f: string)
      reads this
    {
      admin || f in flowIDs
    }

    method CanAccessFlow(f: string) returns (allowed: bool)
      ensures allowed <==> Allows(f)
    {
      if admin {
        return true;
      }
      for i := 0 to |flowIDs|
        invariant f !in flowIDs[..i]
      {
        if flowIDs[i] == f {
          return true;
        }
      }
      return false;
    }

    /** A flow saved by a user who is no administrator joins that user's list, once. */
    method AddFlow(f: string)
      modifies `flowIDs
      ensures flowIDs == if old(Allows(f)) then old(flowIDs) else old(flowIDs) + [f]
    {
      var found := CanAccessFlow(f);
      if !found {
        flowIDs := flowIDs + [f];
      }
    }
  }

  class Server {
    const store: S.Store
    const endpoints: Composite

    constructor (store: S.Store, endpoints: Composite)
      ensures this.store == store && this.endpoints == endpoints
    {
      this.store, this.endpoints := store, endpoints;
    }

    ghost predicate Valid()
      reads store, endpoints, endpoints.http, endpoints.http.servers, endpoints.mqtt
    {
      endpoints.Valid() && "" !in store.flows
    }

    ghost function View(): Sys
      requires endpoints.http.Aligned()
      reads store, endpoints, endpoints.http, endpoints.http.servers, endpoints.mqtt
    {
      endpoints.Beside(store.Contents())
    }

    ghost function WorldOf(f: string, env: nat -> Env, dials: nat -> MqttLedger.Dial): World
      reads endpoints, endpoints.mqtt
    {
      World(env, dials, endpoints.IsOpen(f))
    }

    method AfterPublish(f: string, published: Option<Dsl>, env: nat -> Env, dials: nat -> MqttLedger.Dial)
      returns (r: Reply)
      requires Valid() && f in store.flows && store.flows[f].published == published
      modifies endpoints, endpoints.http, endpoints.http.servers, endpoints.mqtt
      ensures Valid() && fresh(endpoints.http.servers - old(endpoints.http.servers))
      ensures endpoints.mqtt.sessions == old(endpoints.mqtt.sessions)
      ensures (View(), r) == Lifecycle.AfterPublish(old(View()), f, old(WorldOf(f, env, dials)))
    {
      hide H.Manager.Forward, RouteTable.Inv, Sessions.CountsExact, SyncBoth, Sessions.Openers;
      r := endpoints.SyncFlow(store.Contents(), f, published, env, dials);
    }

    method AfterOffline(f: string, rec: FlowDoc, env: nat -> Env, dials: nat -> MqttLedger.Dial) returns (r: Reply)
      requires Valid() && f in store.flows && store.flows[f] == rec
      modifies endpoints, endpoints.http, endpoints.http.servers, endpoints.mqtt
      ensures Valid() && fresh(endpoints.http.servers - old(endpoints.http.servers))
      ensures (View(), r) == Lifecycle.AfterOffline(old(View()), f, old(WorldOf(f, env, dials)))
    {
      hide H.Manager.Forward, RouteTable.Inv, Sessions.CountsExact, SyncBoth, Sessions.Openers, MqttLedger.SyncDraft;
      r := AfterPublish(f, rec.published, env, dials);
      if r.Done? {
        endpoints.SyncDraftIfOpen(store.Contents(), f, rec.published, rec.draft, env, dials);
      }
    }

    method HandleSaveFlow(user: User, body: Dsl, newId: string, now: string, ghost env: nat -> Env,
                          dials: nat -> MqttLedger.Dial)
      returns (r: Reply)
      requires Valid() && newId != ""
      modifies store, endpoints.mqtt, user`flowIDs
      ensures Valid()
      ensures var id := if body.id == "" then newId else body.id;
        if id in old(store.flows) && !old(user.Allows(id))
        then r == Forbidden && View() == old(View()) && user.flowIDs == old(user.flowIDs)
        else (View(), r) == Lifecycle.HandleSave(old(View()), user.id, body, newId, now, old(WorldOf(id, env, dials)))
             && user.flowIDs == if r.Done? && !old(user.Allows(id)) then old(user.flowIDs) + [id] else old(user.flowIDs)
    {
      hide H.Manager.Forward, RouteTable.Inv, Sessions.CountsExact, Sessions.Openers, MqttLedger.SyncDraft;
      var dsl := if body.id == "" then body.(id := newId) else body;
      var existing := store.GetFlow(dsl.id);
      if existing.Ok? {
        var allowed := user.CanAccessFlow(dsl.id);
        if !allowed {
          return Forbidden;
        }
        if existing.value.locked {
          return Refused(FlowLocked);
        }
      }
      var rec := store.SaveFlow(user.id, dsl, now);
      if rec.Err? {
        return Refused(FlowLocked);
      }
      user.AddFlow(dsl.id);
      endpoints.SyncDraftIfOpen(store.Contents(), dsl.id, rec.value.published, rec.value.draft, env, dials);
      return Done;
    }

    /** The common end of publish, online and rollback: report a refusal, or rebuild the endpoints. */
    method Finish(ghost before: Sys, f: string, ghost op: DocOp, rec: Result<FlowDoc>, env: nat -> Env,
        dials: nat -> MqttLedger.Dial) returns (r: Reply)
      requires Valid() && before == View().(db := before.db) && store.Performed(before.db, f, op, rec)
      modifies endpoints, endpoints.http, endpoints.http.servers, endpoints.mqtt
      ensures Valid() && fresh(endpoints.http.servers - old(endpoints.http.servers))
      ensures (View(), r) == StoreThenSync(before, f, op, old(WorldOf(f, env, dials)))
    {
      hide H.Manager.Forward, RouteTable.Inv, Sessions.CountsExact, Sessions.Openers, SyncBoth, OnDoc;
      if rec.Err? {
        return Refused(rec.error);
      }
      r := AfterPublish(f, rec.value.published, env, dials);
    }

    method HandlePublishFlow(f: string, note: string, now: string, env: nat -> Env, dials: nat -> MqttLedger.Dial)
      returns (r: Reply)
      requires Valid()
      modifies store, endpoints, endpoints.http, endpoints.http.servers, endpoints.mqtt
      ensures Valid() && fresh(endpoints.http.servers - old(endpoints.http.servers))
      ensures (View(), r) == HandlePublish(old(View()), f, note, now, old(WorldOf(f, env, dials)))
    {
      hide H.Manager.Forward, RouteTable.Inv, Sessions.CountsExact, Sessions.Openers, CheckPasses, StoreThenSync, OnDoc;
      var rec := store.GetFlow(f);
      if rec.Err? {
        return Refused(rec.error);
      }
      if rec.value.locked {
        return Refused(FlowLocked);
      }
      if rec.value.draft.None? {
        return Refused(DraftEmpty);
      }
      var passes := endpoints.CheckHTTPRoutes(f, rec.value.draft.value);
      if !passes {
        return Conflict;
      }
      ghost var before := View();
      rec := store.PublishFlow(f, note, now);
      r := Finish(before, f, FlowDocs.Publish(note, now), rec, env, dials);
    }

    method HandleUnpublishFlow(f: string, now: string, env: nat -> Env, dials: nat -> MqttLedger.Dial)
      returns (r: Reply)
      requires Valid()
      modifies store, endpoints, endpoints.http, endpoints.http.servers, endpoints.mqtt
      ensures Valid() && fresh(endpoints.http.servers - old(endpoints.http.servers))
      ensures (View(), r) == HandleOffline(old(View()), f, now, old(WorldOf(f, env, dials)))
    {
      hide H.Manager.Forward, RouteTable.Inv, Sessions.CountsExact, Sessions.Openers, SyncBoth;
      hide Lifecycle.AfterOffline, Capped;
      var rec := store.GetFlow(f);
      if rec.Err? {
        return Refused(rec.error);
      }
      if rec.value.locked {
        return Refused(FlowLocked);
      }
      rec := store.UnpublishFlow(f, now);
      if rec.Err? {
        return Refused(rec.error);
      }
      r := AfterOffline(f, rec.value, env, dials);
    }

    method HandleGoOnlineFlow(f: string, now: string, env: nat -> Env, dials: nat -> MqttLedger.Dial) returns (r: Reply)
      requires Valid()
      modifies store, endpoints, endpoints.http, endpoints.http.servers, endpoints.mqtt
      ensures Valid() && fresh(endpoints.http.servers - old(endpoints.http.servers))
      ensures (View(), r) == HandleOnline(old(View()), f, now, old(WorldOf(f, env, dials)))
    {
      hide H.Manager.Forward, RouteTable.Inv, Sessions.CountsExact, Sessions.Openers, CheckPasses, StoreThenSync, OnDoc;
      var rec := store.GetFlow(f);
      if rec.Err? {
        return Refused(rec.error);
      }
      if rec.value.locked {
        return Refused(FlowLocked);
      }
      if rec.value.published.Some? {
        return Refused(AlreadyOnline);
      }
      var peek := store.PeekLatestPublishDSL(f);
      if peek.Err? {
        return Refused(peek.error);
      }
      var passes := endpoints.CheckHTTPRoutes(f, peek.value);
      if !passes {
        return Conflict;
      }
      ghost var before := View();
      rec := store.GoOnlineFromLatest(f, now);
      r := Finish(before, f, FlowDocs.Online(now), rec, env, dials);
    }

    /** The first listed snapshot of a version: live, then newest first. */
    method FindListed(list: seq<HistEntry>, version: int) returns (dsl: Option<Dsl>)
      ensures dsl == match Oldest(list, version) case None => None case Some(e) => Some(e.dsl)
    {
      var i := 0;
      assert list[0..] == list;
      while i < |list|
        invariant 0 <= i <= |list|
        invariant Oldest(list, version) == Oldest(list[i..], version)
      {
        assert list[i..][0] == list[i] && list[i..][1..] == list[i + 1..];
        if list[i].version == version {
          return Some(list[i].dsl);
        }
        i := i + 1;
      }
      return None;
    }

    /** The snapshot that the rollback handler checks. */
    method FindTarget(f: string, version: int) returns (target: Option<Dsl>)
      requires f in store.flows
      ensures target == PublishLog.RollbackChecked(store.flows[f], version)
    {
      var hist := store.ListPublishHistory(f);
      target := FindListed(hist.value, version);
    }

    method HandleRollbackPublish(f: string, version: int, now: string, env: nat -> Env, dials: nat -> MqttLedger.Dial)
      returns (r: Reply)
      requires Valid()
      modifies store, endpoints, endpoints.http, endpoints.http.servers, endpoints.mqtt
      ensures Valid() && fresh(endpoints.http.servers - old(endpoints.http.servers))
      ensures (View(), r) == HandleRollback(old(View()), f, version, now, old(WorldOf(f, env, dials)))
    {
      hide H.Manager.Forward, RouteTable.Inv, Sessions.CountsExact, Sessions.Openers, CheckPasses, StoreThenSync;
      hide OnDoc, PublishLog.RollbackChecked;
      if version <= 0 {
        return Refused(HistoryNotFound);
      }
      var rec := store.GetFlow(f);
      if rec.Err? {
        return Refused(rec.error);
      }
      if rec.value.locked {
        return Refused(FlowLocked);
      }
      var target := FindTarget(f, version);
      if target.None? {
        return Refused(HistoryNotFound);
      }
      var passes := endpoints.CheckHTTPRoutes(f, target.value);
      if !passes {
        return Conflict;
      }
      ghost var before := View();
      rec := store.RollbackPublish(f, version, now);
      r := Finish(before, f, FlowDocs.Rollback(version, now), rec, env, dials);
    }

    /** Outside the trash: move in, going offline first. Inside: delete for good. */
    method HandleDeleteFlow(f: string, now: string, env: nat -> Env, dials: nat -> MqttLedger.Dial) returns (r: Reply)
      requires Valid()
      modifies store, endpoints, endpoints.http, endpoints.http.servers, endpoints.mqtt
      ensures Valid() && fresh(endpoints.http.servers - old(endpoints.http.servers))
      ensures (View(), r) == HandleDelete(old(View()), f, now, old(WorldOf(f, env, dials)))
    {
      hide H.Manager.Forward, RouteTable.Inv, Sessions.CountsExact, Sessions.Openers, SyncBoth;
      hide Lifecycle.AfterOffline, RemoveBoth, Capped;
      var purged, wasPublished := store.SoftDeleteOrPurgeFlow(f, now);
      if purged.Err? {
        return Refused(purged.error);
      }
      if purged.value {
        endpoints.RemoveFlow(store.Contents(), f);
        return Done;
      }
      if wasPublished {
        r := AfterOffline(f, store.flows[f], env, dials);
        return;
      }
      return Done;
    }
  }
}
