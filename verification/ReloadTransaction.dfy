/**
 * Transactional reload (core/include/runtime/runtime_store.hpp, core/src/runtime_store.cpp and
 * reload_runtime_config in core/src/runtime/runtime.cpp:907-950).
 */
module ReloadTransaction {

  /** The contents of a setting; what they mean is up to its owner. */
  type Value = string

  datatype Snapshot = Nothing | Taken(value: Value)

  class TypedSetting {
    var value: Value
    const default: Value
    var saved: Snapshot

    constructor (default: Value)
      ensures this.default == default && value == default && saved == Nothing
    {
      this.default, value, saved := default, default, Nothing;
    }

    method Snapshot()
      modifies this`saved
      ensures saved == Taken(value)
    {
      saved := Taken(value);
    }

    method Rollback()
      modifies this
      ensures saved == Nothing && value == if old(saved) == Nothing then old(value) else old(saved).value
    {
      if saved.Taken? {
        value := saved.value;
      }
      saved := Nothing;
    }

    method Commit()
      modifies this`saved
      ensures saved == Nothing
    {
      saved := Nothing;
    }

    method Set(v: Value)
      modifies this`value
      ensures value == v
    {
      value := v;
    }

    method Clear()
      modifies this`value
      ensures value == default
    {
      value := default;
    }
  }

  /** The registry of settings. It does not own them, and nothing stops two keys from naming one setting. */
  class RuntimeStore {
    var settings: map<string, TypedSetting>

    constructor ()
      ensures settings == map[]
    {
      settings := map[];
    }

    ghost function Objects(): (s: set<TypedSetting>)
      reads this
      ensures forall k :: k in settings ==> settings[k] in s
    {
      set k | k in settings :: settings[k]
    }

    function Values(): map<string, Value>
      reads this, Objects()
    {
      map k | k in settings :: settings[k].value
    }

    ghost predicate NoneSaved()
      reads this, Objects()
    {
      forall k :: k in settings ==> settings[k].saved == Nothing
    }

    /** Every setting has a snapshot, and `values` is what the snapshots hold. */
    ghost predicate SavedAre(values: map<string, Value>)
      reads this, Objects()
    {
      values.Keys == settings.Keys && forall k :: k in settings ==> settings[k].saved == Taken(values[k])
    }

    /** Each key has a setting of its own. */
    ghost predicate Injective()
      reads this
    {
      forall j, k :: j in settings && k in settings && j != k ==> settings[j] != settings[k]
    }

    /** The settings after a script has written `written` over the defaults. */
    function Loaded(written: map<string, Value>): map<string, Value>
      reads this
    {
      map k | k in settings :: if k in written then written[k] else settings[k].default
    }

    method RegisterSetting(key: string, setting: TypedSetting)
      modifies this
      ensures settings == old(settings)[key := setting]
    {
      settings := settings[key := setting];
    }

    method SnapshotAll()
      modifies Objects()
      ensures Values() == old(Values()) && SavedAre(old(Values()))
    {
      var todo := settings.Keys;
      while todo != {}
        invariant todo <= settings.Keys
        invariant forall k :: k in settings ==> settings[k].value == old(settings[k].value)
        invariant forall k :: k in settings && k !in todo ==> settings[k].saved == Taken(old(settings[k].value))
        decreases |todo|
      {
        var k :| k in todo;
        settings[k].Snapshot();
        todo := todo - {k};
      }
    }

    method RollbackAll()
      modifies Objects()
      ensures NoneSaved() && forall k :: k in settings ==> RolledBack(settings[k])
    {
      var todo := settings.Keys;
      while todo != {}
        invariant todo <= settings.Keys
        invariant forall k :: k in settings ==>
          (settings[k].value == old(settings[k].value) && settings[k].saved == old(settings[k].saved)) ||
          RolledBack(settings[k])
        invariant forall k :: k in settings && k !in todo ==> RolledBack(settings[k])
        decreases |todo|
      {
        var k :| k in todo;
        settings[k].Rollback();
        todo := todo - {k};
      }
    }

    twostate predicate RolledBack(s: TypedSetting)
      reads s
    {
      s.saved == Nothing && s.value == if old(s.saved) == Nothing then old(s.value) else old(s.saved).value
    }

    method CommitAll()
      modifies Objects()
      ensures NoneSaved() && Values() == old(Values())
    {
      var todo := settings.Keys;
      while todo != {}
        invariant todo <= settings.Keys
        invariant forall k :: k in settings ==> settings[k].value == old(settings[k].value)
        invariant forall k :: k in settings && k !in todo ==> settings[k].saved == Nothing
        decreases |todo|
      {
        var k :| k in todo;
        settings[k].Commit();
        todo := todo - {k};
      }
    }

    method ClearAll()
      modifies Objects()
      ensures Values() == Loaded(map[])
      ensures forall values :: old(SavedAre(values)) ==> SavedAre(values)
    {
      var todo := settings.Keys;
      while todo != {}
        invariant todo <= settings.Keys
        invariant forall k :: k in settings ==> settings[k].saved == old(settings[k].saved)
        invariant forall k :: k in settings && k !in todo ==> settings[k].value == settings[k].default
        decreases |todo|
      {
        var k :| k in todo;
        settings[k].Clear();
        todo := todo - {k};
      }
    }
  
    lemma DistinctSettings(j: string, k: string)
      requires Injective() && j in settings && k in settings && j != k
      ensures settings[j] != settings[k]
    {
    }

    /** The settings hold what was written, except those in `todo`, which hold what they had before. */
    ghost predicate Half(was: map<string, Value>, written: map<string, Value>, todo: set<string>)
      requires was.Keys == settings.Keys
      reads this, Objects()
    {
      forall k :: k in settings ==> settings[k].value == (if k in written && k !in todo then written[k] else was[k])
    }

    lemma HalfDone(written: map<string, Value>)
      requires Half(Loaded(map[]), written, {})
      ensures Values() == Loaded(written)
    {
    }

    lemma NothingWritten(written: map<string, Value>)
      ensures Values().Keys == settings.Keys && Half(Values(), written, settings.Keys * written.Keys)
    {
    }

    /** A snapshot is where it was if no setting's `saved` has changed. */
    twostate lemma SnapshotsKept()
      requires settings == old(settings) && forall k :: k in settings ==> settings[k].saved == old(settings[k].saved)
      ensures forall values :: old(SavedAre(values)) ==> SavedAre(values)
    {
    }

    /** One write; with settings of their own, no other key notices it. */
    method WriteOne(k: string, s: TypedSetting, written: map<string, Value>,
                    ghost was: map<string, Value>, ghost todo: set<string>)
      requires k in settings && settings[k] == s && k in written && k in todo && was.Keys == settings.Keys
      requires Injective() ==> Half(was, written, todo)
      modifies s`value
      ensures Injective() ==> Half(was, written, todo - {k})
    {
      if Injective() {
        forall j | j in settings && j != k
          ensures settings[j] != settings[k]
        {
          DistinctSettings(j, k);
        }
      }
      s.Set(written[k]);
    }

    /** The writes of a script, in whatever order it makes them. */
    method WriteAll(written: map<string, Value>)
      modifies Objects()
      ensures forall k :: k in settings ==> settings[k].saved == old(settings[k].saved)
      ensures old(Values()).Keys == settings.Keys && (Injective() ==> Half(old(Values()), written, {}))
    {
      hide Injective, Half, Values, Objects;
      ghost var was := Values();
      NothingWritten(written);
      var todo := settings.Keys * written.Keys;
      while todo != {}
        invariant forall k :: k in todo ==> k in settings && k in written
        invariant forall k :: k in settings ==> settings[k].saved == old(settings[k].saved)
        invariant Injective() ==> Half(was, written, todo)
        decreases |todo|
      {
        var k :| k in todo;
        WriteOne(k, settings[k], written, was, todo);
        todo := todo - {k};
      }
    }

    method Write(written: map<string, Value>)
      modifies Objects()
      ensures forall values :: old(SavedAre(values)) ==> SavedAre(values)
      ensures Injective() && old(Values()) == Loaded(map[]) ==> Values() == Loaded(written)
    {
      hide Injective, SavedAre, Half, Loaded;
      ghost var was := Values();
      WriteAll(written);
      SnapshotsKept();
      if Injective() && was == Loaded(map[]) {
        HalfDone(written);
      }
    }
  }

  /** The part of the core that a reload touches. */
  datatype ReloadState = ReloadState(settings: Value, keybindings: seq<string>, layoutCfg: Value, activeLayout: string)

  /** What a configuration script does when it is loaded: it writes settings and core state, or fails half way. */
  datatype Script = Script(values: map<string, Value>, core: ReloadState, layouts: set<string>, ok: bool)

  class Reloader {
    const store: RuntimeStore
    var configPath: string
    var core: ReloadState
    var luaLayouts: set<string>

    constructor (store: RuntimeStore, configPath: string, core: ReloadState, luaLayouts: set<string>)
      ensures this.store == store && this.configPath == configPath
      ensures this.core == core && this.luaLayouts == luaLayouts
    {
      this.store, this.configPath, this.core, this.luaLayouts := store, configPath, core, luaLayouts;
    }

    /** config_loader::load, in which a script may write any setting and any of the core's reloadable state. */
    method Load(script: Script) returns (ok: bool)
      modifies this`core, this`luaLayouts, store.Objects()
      ensures ok == script.ok && core == script.core && luaLayouts == script.layouts
      ensures forall values :: old(store.SavedAre(values)) ==> store.SavedAre(values)
      ensures store.Injective() && old(store.Values()) == store.Loaded(map[]) ==> store.Values() == store.Loaded(script.values)
    {
      core, luaLayouts := script.core, script.layouts;
      store.Write(script.values);
      ok := script.ok;
    }

    /** restore_snapshot. */
    method Restore(backup: ReloadState, ghost values: map<string, Value>)
      requires store.SavedAre(values)
      modifies this`core, store.Objects()
      ensures store.NoneSaved() && store.Values() == values && core == backup
    {
      store.RollbackAll();
      core := backup;
    }

    /**
     * reload_runtime_config. `check` is validate_settings as a function of the settings, `build` turns
     * them into core settings. A failed reload leaves every setting and the core's settings, keybindings,
     * layout configuration and active layout as they were; a successful one has passed validation; and no
     * snapshot remains. The script's own layouts are not part of the transaction: they are cleared at the
     * start and a failed reload does not bring them back.
     */
    method ReloadRuntimeConfig(
      syntaxOk: bool, script: Script, check: map<string, Value> -> seq<string>, build: map<string, Value> -> Value)
      returns (ok: bool)
      requires store.NoneSaved()
      modifies this`core, this`luaLayouts, store.Objects()
      ensures store.NoneSaved()
      ensures !ok ==> store.Values() == old(store.Values()) && core == old(core)
      ensures ok ==> configPath != "" && syntaxOk && script.ok && check(store.Values()) == []
      ensures ok ==> core == script.core.(settings := build(store.Values()))
      ensures store.Injective() ==>
        (ok <==> configPath != "" && syntaxOk && script.ok && check(store.Loaded(script.values)) == [])
      ensures store.Injective() && ok ==> store.Values() == store.Loaded(script.values)
      ensures luaLayouts == if configPath == "" || !syntaxOk then old(luaLayouts) else script.layouts
    {
      hide RuntimeStore.Values, RuntimeStore.SavedAre, RuntimeStore.Injective, RuntimeStore.Loaded;
      hide RuntimeStore.NoneSaved;
      ok := false;
      if configPath == "" {
        return;
      }
      if !syntaxOk {
        return;
      }
      ghost var before := store.Values();
      store.SnapshotAll();
      var backup := core;
      store.ClearAll();
      core, luaLayouts := core.(keybindings := []), {};
      var loaded := Load(script);
      assert store.SavedAre(before);
      if !loaded {
        Restore(backup, before);
        return;
      }
      var values := store.Values();
      var errs := check(values);
      if errs != [] {
        Restore(backup, before);
        return;
      }
      store.CommitAll();
      core := core.(settings := build(store.Values()));
      ok := true;
    }
  }
}
