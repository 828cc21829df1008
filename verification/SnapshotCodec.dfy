// packages/protocol/src/provider-snapshot-codec.ts: provider snapshots with the thinking options that
// several models share kept once, in a table.

module SnapshotCodec {
  import opened Wrappers
  import opened Sequences
  import opened JsonText

  // fields holds the properties that the codec passes on as they are.
  datatype Model = Model(
    provider: string,
    fields: seq<Field>,
    thinkingOptions: Option<seq<Json>>,
    defaultThinkingOptionId: Option<string>)

  datatype Entry = Entry(provider: string, fields: seq<Field>, models: Option<seq<Model>>)

  datatype ThinkingSet = ThinkingSet(options: seq<Json>, defaultOptionId: Option<string>)

  // On the wire the index can be any number.
  datatype CompactModel = CompactModel(fields: seq<Field>, defaultThinkingOptionId: Option<string>, thinkingSet: Option<int>)

  datatype CompactEntry = CompactEntry(provider: string, fields: seq<Field>, models: Option<seq<CompactModel>>)

  datatype Snapshot = Snapshot(entries: seq<CompactEntry>, thinkingSets: seq<ThinkingSet>)

  // ---- Keys ----

  function SetJson(t: ThinkingSet): Json
  {
    var options := Field("options", Arr(t.options));
    Obj(if t.defaultOptionId.Some? then [options, Field("defaultOptionId", Str(t.defaultOptionId.value))] else [options])
  }

  function ThinkingSetKey(t: ThinkingSet): string
  {
    Stringify(SetJson(t))
  }

  lemma KeyInjective(t: ThinkingSet, u: ThinkingSet)
    ensures ThinkingSetKey(t) == ThinkingSetKey(u) <==> t == u
  {
    StringifyInjective(SetJson(t), SetJson(u));
    if SetJson(t) == SetJson(u) {
      assert SetJson(t).fields[0].value.items == t.options && SetJson(u).fields[0].value.items == u.options;
      assert |SetJson(t).fields| == if t.defaultOptionId.Some? then 2 else 1;
    }
  }

  // ---- Compacting, with the table as it stands so far ----

  function Position(table: seq<ThinkingSet>, t: ThinkingSet): (r: Option<nat>)
    ensures r.None? ==> t !in table
    ensures r.Some? ==> r.value < |table| && table[r.value] == t
  {
    if table == [] then None
    else
      var init, n := table[..|table| - 1], |table| - 1;
      var r := Position(init, t);
      assert table == init + [table[n]];
      if r.Some? then r else if table[n] == t then Some(n) else None
  }

  function SetOf(m: Model): Option<ThinkingSet>
  {
    if m.thinkingOptions.None? then None else Some(ThinkingSet(m.thinkingOptions.value, m.defaultThinkingOptionId))
  }

  // The table after one more model.
  function Noted(table: seq<ThinkingSet>, m: Model): seq<ThinkingSet>
  {
    if SetOf(m).Some? && SetOf(m).value !in table then table + [SetOf(m).value] else table
  }

  function Compacted(table: seq<ThinkingSet>, m: Model): CompactModel
  {
    var t := SetOf(m);
    if t.None? then CompactModel(m.fields, m.defaultThinkingOptionId, None)
    else
      var p := Position(table, t.value);
      CompactModel(m.fields, None, Some(if p.Some? then p.value else |table|))
  }

  function NotedModels(table: seq<ThinkingSet>, models: seq<Model>): seq<ThinkingSet>
  {
    if models == [] then table else Noted(NotedModels(table, models[..|models| - 1]), models[|models| - 1])
  }

  function CompactModels(table: seq<ThinkingSet>, models: seq<Model>): seq<CompactModel>
  {
    if models == [] then []
    else
      var init, last := models[..|models| - 1], models[|models| - 1];
      CompactModels(table, init) + [Compacted(NotedModels(table, init), last)]
  }

  function NotedEntry(table: seq<ThinkingSet>, e: Entry): seq<ThinkingSet>
  {
    if e.models.Some? then NotedModels(table, e.models.value) else table
  }

  function CompactOne(table: seq<ThinkingSet>, e: Entry): CompactEntry
  {
    CompactEntry(e.provider, e.fields, if e.models.Some? then Some(CompactModels(table, e.models.value)) else None)
  }

  function NotedEntries(entries: seq<Entry>): seq<ThinkingSet>
  {
    if entries == [] then [] else NotedEntry(NotedEntries(entries[..|entries| - 1]), entries[|entries| - 1])
  }

  function CompactEntries(entries: seq<Entry>): seq<CompactEntry>
  {
    if entries == [] then []
    else
      var init, last := entries[..|entries| - 1], entries[|entries| - 1];
      CompactEntries(init) + [CompactOne(NotedEntries(init), last)]
  }

  function Compact(entries: seq<Entry>): Snapshot
  {
    Snapshot(CompactEntries(entries), NotedEntries(entries))
  }

  // ---- Expanding ----

  // The missing index that the RangeError names.
  function ExpandModel(provider: string, m: CompactModel, table: seq<ThinkingSet>): Result<Model, int>
  {
    if m.thinkingSet.None? then Ok(Model(provider, m.fields, None, m.defaultThinkingOptionId))
    else if !(0 <= m.thinkingSet.value < |table|) then Err(m.thinkingSet.value)
    else
      var t := table[m.thinkingSet.value];
      Ok(Model(provider, m.fields, Some(t.options),
               if t.defaultOptionId.Some? then t.defaultOptionId else m.defaultThinkingOptionId))
  }

  function ExpandModels(provider: string, models: seq<CompactModel>, table: seq<ThinkingSet>): Result<seq<Model>, int>
  {
    if models == [] then Ok([])
    else
      var init := ExpandModels(provider, models[..|models| - 1], table);
      if init.Err? then init
      else
        var last := ExpandModel(provider, models[|models| - 1], table);
        if last.Err? then Err(last.error) else Ok(init.value + [last.value])
  }

  function ExpandEntry(e: CompactEntry, table: seq<ThinkingSet>): Result<Entry, int>
  {
    if e.models.None? then Ok(Entry(e.provider, e.fields, None))
    else
      var models := ExpandModels(e.provider, e.models.value, table);
      if models.Err? then Err(models.error) else Ok(Entry(e.provider, e.fields, Some(models.value)))
  }

  function ExpandEntries(entries: seq<CompactEntry>, table: seq<ThinkingSet>): Result<seq<Entry>, int>
  {
    if entries == [] then Ok([])
    else
      var init := ExpandEntries(entries[..|entries| - 1], table);
      if init.Err? then init
      else
        var last := ExpandEntry(entries[|entries| - 1], table);
        if last.Err? then Err(last.error) else Ok(init.value + [last.value])
  }

  function Expand(s: Snapshot): Result<seq<Entry>, int>
  {
    ExpandEntries(s.entries, s.thinkingSets)
  }

  // ---- The table ----

  // The sets used, in order, each as often as it is used.
  function Uses(models: seq<Model>): seq<ThinkingSet>
  {
    if models == [] then []
    else
      var t := SetOf(models[|models| - 1]);
      Uses(models[..|models| - 1]) + if t.Some? then [t.value] else []
  }

  function AllUses(entries: seq<Entry>): seq<ThinkingSet>
  {
    if entries == [] then []
    else
      var e := entries[|entries| - 1];
      AllUses(entries[..|entries| - 1]) + if e.models.Some? then Uses(e.models.value) else []
  }

  lemma {:induction false} NotedModelsAreFirstUses(table: seq<ThinkingSet>, models: seq<Model>)
    ensures NotedModels(table, models) == FirstUses(table, Uses(models))
  {
    if models != [] {
      var init, t := models[..|models| - 1], SetOf(models[|models| - 1]);
      NotedModelsAreFirstUses(table, init);
      if t.Some? {
        assert (Uses(init) + [t.value])[..|Uses(init)|] == Uses(init);
      } else {
        assert Uses(init) + [] == Uses(init);
      }
    }
  }

  // The table holds the sets in use, each once, in the order of their first use.
  lemma {:induction false} TableIsFirstUses(entries: seq<Entry>)
    ensures Compact(entries).thinkingSets == FirstUses([], AllUses(entries))
  {
    if entries != [] {
      var init, e := entries[..|entries| - 1], entries[|entries| - 1];
      TableIsFirstUses(init);
      var more := if e.models.Some? then Uses(e.models.value) else [];
      FirstUsesCat([], AllUses(init), more);
      if e.models.Some? {
        NotedModelsAreFirstUses(NotedEntries(init), e.models.value);
      }
    }
  }

  lemma TableIsExact(entries: seq<Entry>)
    ensures AllDistinct(Compact(entries).thinkingSets)
    ensures forall t :: t in Compact(entries).thinkingSets <==> t in AllUses(entries)
  {
    TableIsFirstUses(entries);
    FirstUsesMeans(AllUses(entries));
  }

  lemma {:induction false} NotedModelsGrows(table: seq<ThinkingSet>, models: seq<Model>)
    ensures table <= NotedModels(table, models)
  {
    if models != [] {
      NotedModelsGrows(table, models[..|models| - 1]);
    }
  }

  // ---- Round trips ----

  // What a compact snapshot can still tell: a model's own provider is not kept.
  function WithProvider(provider: string, models: seq<Model>): seq<Model>
  {
    if models == [] then []
    else WithProvider(provider, models[..|models| - 1]) + [models[|models| - 1].(provider := provider)]
  }

  function Normal(entries: seq<Entry>): seq<Entry>
  {
    if entries == [] then []
    else
      var e := entries[|entries| - 1];
      Normal(entries[..|entries| - 1]) +
      [if e.models.Some? then e.(models := Some(WithProvider(e.provider, e.models.value))) else e]
  }

  // A model expands to itself over any table that continues the one it was compacted with.
  lemma ModelRoundTrip(provider: string, m: Model, table: seq<ThinkingSet>, later: seq<ThinkingSet>)
    requires Noted(table, m) <= later
    ensures ExpandModel(provider, Compacted(table, m), later) == Ok(m.(provider := provider))
  {
    var t := SetOf(m);
    if t.Some? {
      var i := Compacted(table, m).thinkingSet.value;
      var p := Position(table, t.value);
      assert Noted(table, m)[i] == t.value;
      assert later[i] == t.value;
    }
  }

  lemma {:induction false} ModelsRoundTrip(provider: string, models: seq<Model>, table: seq<ThinkingSet>, later: seq<ThinkingSet>)
    requires NotedModels(table, models) <= later
    ensures ExpandModels(provider, CompactModels(table, models), later) == Ok(WithProvider(provider, models))
  {
    if models != [] {
      var init, last := models[..|models| - 1], models[|models| - 1];
      var before := NotedModels(table, init);
      assert before <= NotedModels(table, models);
      ModelsRoundTrip(provider, init, table, later);
      ModelRoundTrip(provider, last, before, later);
      assert CompactModels(table, models)[..|CompactModels(table, init)|] == CompactModels(table, init);
    }
  }

  lemma {:induction false} EntriesRoundTrip(entries: seq<Entry>, later: seq<ThinkingSet>)
    requires NotedEntries(entries) <= later
    ensures ExpandEntries(CompactEntries(entries), later) == Ok(Normal(entries))
  {
    if entries != [] {
      var init, e := entries[..|entries| - 1], entries[|entries| - 1];
      if e.models.Some? {
        NotedModelsGrows(NotedEntries(init), e.models.value);
        ModelsRoundTrip(e.provider, e.models.value, NotedEntries(init), later);
      }
      EntriesRoundTrip(init, later);
      assert CompactEntries(entries)[..|CompactEntries(init)|] == CompactEntries(init);
    }
  }

  // Expansion of a compacted snapshot never throws, and gives it back but for the models' providers.
  lemma RoundTrip(entries: seq<Entry>)
    ensures Expand(Compact(entries)) == Ok(Normal(entries))
  {
    EntriesRoundTrip(entries, NotedEntries(entries));
  }

  predicate OwnProviders(entries: seq<Entry>)
  {
    forall i :: 0 <= i < |entries| && entries[i].models.Some? ==> ProvidedBy(entries[i].models.value, entries[i].provider)
  }

  predicate ProvidedBy(models: seq<Model>, provider: string)
  {
    forall j :: 0 <= j < |models| ==> models[j].provider == provider
  }

  lemma {:induction false} WithProviderAt(provider: string, models: seq<Model>)
    ensures |WithProvider(provider, models)| == |models|
    ensures forall j :: 0 <= j < |models| ==> WithProvider(provider, models)[j] == models[j].(provider := provider)
  {
    if models != [] {
      WithProviderAt(provider, models[..|models| - 1]);
    }
  }

  lemma {:induction false} NormalAt(entries: seq<Entry>)
    ensures |Normal(entries)| == |entries|
    ensures forall i :: 0 <= i < |entries| ==>
              var e := entries[i];
              Normal(entries)[i] == if e.models.Some? then e.(models := Some(WithProvider(e.provider, e.models.value))) else e
  {
    if entries != [] {
      NormalAt(entries[..|entries| - 1]);
    }
  }

  lemma NormalIff(entries: seq<Entry>)
    ensures Normal(entries) == entries <==> OwnProviders(entries)
  {
    NormalAt(entries);
    hide Normal;
    forall i | 0 <= i < |entries| && entries[i].models.Some?
      ensures Normal(entries)[i] == entries[i] <==> ProvidedBy(entries[i].models.value, entries[i].provider)
    {
      SameModelsIff(entries[i]);
    }
    if OwnProviders(entries) {
      assert forall i :: 0 <= i < |entries| ==> Normal(entries)[i] == entries[i];
    }
  }

  lemma SameModelsIff(e: Entry)
    requires e.models.Some?
    ensures e.(models := Some(WithProvider(e.provider, e.models.value))) == e <==> ProvidedBy(e.models.value, e.provider)
  {
    var models := e.models.value;
    WithProviderAt(e.provider, models);
    hide WithProvider;
    if WithProvider(e.provider, models) == models {
      assert forall j :: 0 <= j < |models| ==> models[j].(provider := e.provider) == models[j];
    }
  }

  // The round trip is exact if and only if every model names its entry's provider.
  lemma RoundTripIff(entries: seq<Entry>)
    ensures Expand(Compact(entries)) == Ok(entries) <==> OwnProviders(entries)
  {
    RoundTrip(entries);
    NormalIff(entries);
  }

  // Compacting does not look at the models' providers.
  lemma {:induction false} ProvidersIgnored(provider: string, models: seq<Model>, table: seq<ThinkingSet>)
    ensures CompactModels(table, WithProvider(provider, models)) == CompactModels(table, models)
    ensures NotedModels(table, WithProvider(provider, models)) == NotedModels(table, models)
  {
    if models != [] {
      var init, last := models[..|models| - 1], models[|models| - 1];
      ProvidersIgnored(provider, init, table);
      var r := WithProvider(provider, models);
      assert r[..|r| - 1] == WithProvider(provider, init) && r[|r| - 1] == last.(provider := provider);
    }
  }

  lemma {:induction false} NormalCompacts(entries: seq<Entry>)
    ensures CompactEntries(Normal(entries)) == CompactEntries(entries)
    ensures NotedEntries(Normal(entries)) == NotedEntries(entries)
  {
    if entries != [] {
      var init, e := entries[..|entries| - 1], entries[|entries| - 1];
      NormalCompacts(init);
      if e.models.Some? {
        ProvidersIgnored(e.provider, e.models.value, NotedEntries(init));
      }
      var r := Normal(entries);
      assert r[..|r| - 1] == Normal(init);
    }
  }

  // Compacting what a compact snapshot expands to gives the same compact snapshot.
  lemma CompactAgain(entries: seq<Entry>)
    ensures Expand(Compact(entries)).Ok? && Compact(Expand(Compact(entries)).value) == Compact(entries)
  {
    RoundTrip(entries);
    NormalCompacts(entries);
  }

  // And a snapshot from anywhere, once expanded, survives the next round trip as it is.
  lemma ExpandedIsStable(s: Snapshot)
    requires Expand(s).Ok?
    ensures Expand(Compact(Expand(s).value)) == Expand(s)
  {
    ExpandedProviders(s.entries, s.thinkingSets);
    RoundTripIff(Expand(s).value);
  }

  lemma {:induction false} ExpandedModels(provider: string, models: seq<CompactModel>, table: seq<ThinkingSet>)
    requires ExpandModels(provider, models, table).Ok?
    ensures ProvidedBy(ExpandModels(provider, models, table).value, provider)
  {
    if models != [] {
      ExpandedModels(provider, models[..|models| - 1], table);
    }
  }

  lemma {:induction false} ExpandedProviders(entries: seq<CompactEntry>, table: seq<ThinkingSet>)
    requires ExpandEntries(entries, table).Ok?
    ensures OwnProviders(ExpandEntries(entries, table).value)
  {
    if entries != [] {
      var e := entries[|entries| - 1];
      ExpandedProviders(entries[..|entries| - 1], table);
      if e.models.Some? {
        ExpandedModels(e.provider, e.models.value, table);
      }
    }
  }

  // ---- When expansion throws ----

  predicate InRange(models: seq<CompactModel>, n: nat)
  {
    forall j :: 0 <= j < |models| && models[j].thinkingSet.Some? ==> 0 <= models[j].thinkingSet.value < n
  }

  predicate AllInRange(entries: seq<CompactEntry>, n: nat)
  {
    forall i :: 0 <= i < |entries| && entries[i].models.Some? ==> InRange(entries[i].models.value, n)
  }

  lemma {:induction false} ExpandModelsThrowsIff(provider: string, models: seq<CompactModel>, table: seq<ThinkingSet>)
    ensures ExpandModels(provider, models, table).Err? <==> !InRange(models, |table|)
    ensures ExpandModels(provider, models, table).Err? ==> !(0 <= ExpandModels(provider, models, table).error < |table|)
  {
    if models != [] {
      var init, m := models[..|models| - 1], models[|models| - 1];
      ExpandModelsThrowsIff(provider, init, table);
      assert InRange(models, |table|) <==>
             InRange(init, |table|) && (m.thinkingSet.Some? ==> 0 <= m.thinkingSet.value < |table|);
    }
  }

  // Expansion throws if and only if some index is out of range, and names such an index.
  lemma {:induction false} ExpandThrowsIff(entries: seq<CompactEntry>, table: seq<ThinkingSet>)
    ensures ExpandEntries(entries, table).Err? <==> !AllInRange(entries, |table|)
    ensures ExpandEntries(entries, table).Err? ==> !(0 <= ExpandEntries(entries, table).error < |table|)
  {
    if entries != [] {
      var init, e := entries[..|entries| - 1], entries[|entries| - 1];
      ExpandThrowsIff(init, table);
      if e.models.Some? {
        ExpandModelsThrowsIff(e.provider, e.models.value, table);
      }
      assert AllInRange(entries, |table|) <==>
             AllInRange(init, |table|) && (e.models.Some? ==> InRange(e.models.value, |table|));
    }
  }

  // The indexes out of range, in the order of the models.
  function MissingOf(models: seq<CompactModel>, n: nat): seq<int>
  {
    if models == [] then []
    else
      var t := models[|models| - 1].thinkingSet;
      MissingOf(models[..|models| - 1], n) + if t.Some? && !(0 <= t.value < n) then [t.value] else []
  }

  function Missing(entries: seq<CompactEntry>, n: nat): seq<int>
  {
    if entries == [] then []
    else
      var e := entries[|entries| - 1];
      Missing(entries[..|entries| - 1], n) + if e.models.Some? then MissingOf(e.models.value, n) else []
  }

  lemma {:induction false} FirstOfModels(provider: string, models: seq<CompactModel>, table: seq<ThinkingSet>)
    ensures var r, missing := ExpandModels(provider, models, table), MissingOf(models, |table|);
            if missing == [] then r.Ok? else r == Err(missing[0])
  {
    if models != [] {
      FirstOfModels(provider, models[..|models| - 1], table);
    }
  }

  // The index that is named is the first one.
  lemma {:induction false} FirstMissingNamed(entries: seq<CompactEntry>, table: seq<ThinkingSet>)
    ensures var r, missing := ExpandEntries(entries, table), Missing(entries, |table|);
            if missing == [] then r.Ok? else r == Err(missing[0])
  {
    hide ExpandModels;
    if entries != [] {
      var e := entries[|entries| - 1];
      FirstMissingNamed(entries[..|entries| - 1], table);
      if e.models.Some? {
        FirstOfModels(e.provider, e.models.value, table);
      }
    }
  }

  // What becomes of any model on the wire: the provider of its entry, its own fields, and the set it refers to, whose
  // default goes before its own.
  predicate ExpandsTo(provider: string, c: CompactModel, m: Model, table: seq<ThinkingSet>)
  {
    && m.provider == provider && m.fields == c.fields
    && match c.thinkingSet
       case None => m.thinkingOptions.None? && m.defaultThinkingOptionId == c.defaultThinkingOptionId
       case Some(k) =>
         && 0 <= k < |table| && m.thinkingOptions == Some(table[k].options)
         && (table[k].defaultOptionId.Some? ==> m.defaultThinkingOptionId == table[k].defaultOptionId)
         && (table[k].defaultOptionId.None? ==> m.defaultThinkingOptionId == c.defaultThinkingOptionId)
  }

  predicate EntryExpandsTo(c: CompactEntry, e: Entry, table: seq<ThinkingSet>)
  {
    && e.provider == c.provider && e.fields == c.fields && e.models.Some? == c.models.Some?
    && (e.models.Some? ==>
          && |e.models.value| == |c.models.value|
          && forall j :: 0 <= j < |e.models.value| ==>
               ExpandsTo(c.provider, c.models.value[j], e.models.value[j], table))
  }

  lemma {:induction false} ModelsExpand(provider: string, models: seq<CompactModel>, table: seq<ThinkingSet>)
    requires ExpandModels(provider, models, table).Ok?
    ensures var r := ExpandModels(provider, models, table).value;
            |r| == |models| && forall j :: 0 <= j < |r| ==> ExpandsTo(provider, models[j], r[j], table)
  {
    hide ExpandsTo;
    if models != [] {
      var init, last := models[..|models| - 1], models[|models| - 1];
      ModelsExpand(provider, init, table);
      assert ExpandsTo(provider, last, ExpandModel(provider, last, table).value, table) by {
        ModelExpands(provider, last, table);
      }
    }
  }

  lemma ModelExpands(provider: string, c: CompactModel, table: seq<ThinkingSet>)
    requires ExpandModel(provider, c, table).Ok?
    ensures ExpandsTo(provider, c, ExpandModel(provider, c, table).value, table)
  {
  }

  lemma {:induction false} EntriesExpand(entries: seq<CompactEntry>, table: seq<ThinkingSet>)
    requires ExpandEntries(entries, table).Ok?
    ensures var r := ExpandEntries(entries, table).value;
            |r| == |entries| && forall i :: 0 <= i < |r| ==> EntryExpandsTo(entries[i], r[i], table)
  {
    hide ExpandModels, ExpandsTo;
    if entries != [] {
      var e := entries[|entries| - 1];
      EntriesExpand(entries[..|entries| - 1], table);
      if e.models.Some? {
        ModelsExpand(e.provider, e.models.value, table);
      }
    }
  }

  // What is on the wire for a model: its own fields, and in the place of its options and their default the index of
  // the set they make up.
  predicate CompactsTo(m: Model, c: CompactModel, table: seq<ThinkingSet>)
  {
    && c.fields == m.fields
    && match m.thinkingOptions
       case None => c.thinkingSet.None? && c.defaultThinkingOptionId == m.defaultThinkingOptionId
       case Some(options) =>
         && c.thinkingSet.Some? && c.defaultThinkingOptionId.None? && 0 <= c.thinkingSet.value < |table|
         && table[c.thinkingSet.value] == ThinkingSet(options, m.defaultThinkingOptionId)
  }

  predicate EntryCompactsTo(e: Entry, c: CompactEntry, table: seq<ThinkingSet>)
  {
    && c.provider == e.provider && c.fields == e.fields && c.models.Some? == e.models.Some?
    && (e.models.Some? ==>
          && |c.models.value| == |e.models.value|
          && forall j :: 0 <= j < |e.models.value| ==> CompactsTo(e.models.value[j], c.models.value[j], table))
  }

  lemma ModelCompacts(m: Model, table: seq<ThinkingSet>, later: seq<ThinkingSet>)
    requires Noted(table, m) <= later
    ensures CompactsTo(m, Compacted(table, m), later)
  {
    var t := SetOf(m);
    if t.Some? {
      var i := Compacted(table, m).thinkingSet.value;
      var p := Position(table, t.value);
      assert Noted(table, m)[i] == t.value;
      assert later[i] == t.value;
    }
  }

  lemma {:induction false} ModelsCompact(models: seq<Model>, table: seq<ThinkingSet>, later: seq<ThinkingSet>)
    requires NotedModels(table, models) <= later
    ensures var r := CompactModels(table, models);
            |r| == |models| && forall j :: 0 <= j < |r| ==> CompactsTo(models[j], r[j], later)
  {
    hide CompactsTo, Noted;
    if models != [] {
      var init, last := models[..|models| - 1], models[|models| - 1];
      assert NotedModels(table, init) <= NotedModels(table, models) by { NotedGrows(NotedModels(table, init), last); }
      ModelsCompact(init, table, later);
      ModelCompacts(last, NotedModels(table, init), later);
    }
  }

  lemma NotedGrows(table: seq<ThinkingSet>, m: Model)
    ensures table <= Noted(table, m)
  {
  }

  lemma {:induction false} EntriesCompact(entries: seq<Entry>, later: seq<ThinkingSet>)
    requires NotedEntries(entries) <= later
    ensures var r := CompactEntries(entries);
            |r| == |entries| && forall i :: 0 <= i < |r| ==> EntryCompactsTo(entries[i], r[i], later)
  {
    hide CompactsTo, CompactModels;
    if entries != [] {
      var init, e := entries[..|entries| - 1], entries[|entries| - 1];
      if e.models.Some? {
        NotedModelsGrows(NotedEntries(init), e.models.value);
        ModelsCompact(e.models.value, NotedEntries(init), later);
      }
      EntriesCompact(init, later);
    }
  }

  lemma EmittedInRange(entries: seq<Entry>)
    ensures AllInRange(Compact(entries).entries, |Compact(entries).thinkingSets|)
  {
    RoundTrip(entries);
    ExpandThrowsIff(CompactEntries(entries), NotedEntries(entries));
  }

  // More entries behind leave the compacted ones and the indexes they use as they are.
  lemma {:induction false} EarlierStays(a: seq<Entry>, b: seq<Entry>)
    ensures Compact(a).entries <= Compact(a + b).entries
    ensures Compact(a).thinkingSets <= Compact(a + b).thinkingSets
  {
    if b == [] {
      assert a + b == a;
    } else {
      var init, e := a + b[..|b| - 1], b[|b| - 1];
      assert (a + b)[..|a + b| - 1] == init && (a + b)[|a + b| - 1] == e;
      EarlierStays(a, b[..|b| - 1]);
      if e.models.Some? {
        NotedModelsGrows(NotedEntries(init), e.models.value);
      }
    }
  }

  // ---- The loops of the original, with a map from keys to indexes ----

  class Compactor {
    var thinkingSets: seq<ThinkingSet>
    var thinkingSetIndexes: map<string, nat>

    // The map finds exactly the sets of the table, each at its place.
    ghost predicate Valid()
      reads this
    {
      && AllDistinct(thinkingSets)
      && (forall t: ThinkingSet :: ThinkingSetKey(t) in thinkingSetIndexes <==> t in thinkingSets)
      && (forall i :: 0 <= i < |thinkingSets| ==>
           ThinkingSetKey(thinkingSets[i]) in thinkingSetIndexes && thinkingSetIndexes[ThinkingSetKey(thinkingSets[i])] == i)
    }

    constructor ()
      ensures Valid() && thinkingSets == []
    {
      thinkingSets, thinkingSetIndexes := [], map[];
    }

    method CompactOneModel(m: Model) returns (compact: CompactModel)
      requires Valid()
      modifies this
      ensures Valid() && thinkingSets == Noted(old(thinkingSets), m)
      ensures compact == Compacted(old(thinkingSets), m)
    {
      hide ThinkingSetKey;
      compact := CompactModel(m.fields, None, None);
      if m.thinkingOptions.None? {
        if m.defaultThinkingOptionId.Some? {
          compact := compact.(defaultThinkingOptionId := m.defaultThinkingOptionId);
        }
        return;
      }
      var thinkingSet := ThinkingSet(m.thinkingOptions.value, m.defaultThinkingOptionId);
      var key := ThinkingSetKey(thinkingSet);
      if key in thinkingSetIndexes {
        compact := compact.(thinkingSet := Some(thinkingSetIndexes[key]));
        return;
      }
      var index := |thinkingSets|;
      forall t: ThinkingSet
        ensures ThinkingSetKey(t) == key <==> t == thinkingSet
      {
        KeyInjective(t, thinkingSet);
      }
      thinkingSets := thinkingSets + [thinkingSet];
      thinkingSetIndexes := thinkingSetIndexes[key := index];
      compact := compact.(thinkingSet := Some(index));
    }

    method CompactAllModels(models: seq<Model>) returns (compact: seq<CompactModel>)
      requires Valid()
      modifies this
      ensures Valid() && thinkingSets == NotedModels(old(thinkingSets), models)
      ensures compact == CompactModels(old(thinkingSets), models)
    {
      compact := [];
      for i := 0 to |models|
        invariant Valid() && thinkingSets == NotedModels(old(thinkingSets), models[..i])
        invariant compact == CompactModels(old(thinkingSets), models[..i])
      {
        assert models[..i + 1][..i] == models[..i];
        var c := CompactOneModel(models[i]);
        compact := compact + [c];
      }
      assert models[..|models|] == models;
    }

    method CompactSnapshot(entries: seq<Entry>) returns (snapshot: Snapshot)
      requires Valid() && thinkingSets == []
      modifies this
      ensures snapshot == Compact(entries)
    {
      hide Valid;
      var compact := [];
      for i := 0 to |entries|
        invariant Valid() && thinkingSets == NotedEntries(entries[..i])
        invariant compact == CompactEntries(entries[..i])
      {
        assert entries[..i + 1][..i] == entries[..i];
        var e := entries[i];
        var c := CompactEntry(e.provider, e.fields, None);
        if e.models.Some? {
          var models := CompactAllModels(e.models.value);
          c := c.(models := Some(models));
        }
        compact := compact + [c];
      }
      assert entries[..|entries|] == entries;
      snapshot := Snapshot(compact, thinkingSets);
    }
  }
}
