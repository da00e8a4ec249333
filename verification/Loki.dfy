/** How the Loki adapter sorts a batch of entries into streams. */
module Loki {
  import opened Entries
  import opened Sequences
  import opened Quoting
  import opened StreamKeys

  const CONTEXT_PREFIX := "context_"

  const HIGH_CARDINALITY := {
    "request_id", "trace_id", "user_id", "session_id", "transaction_id", "correlation_id", "ip_address",
    "user_agent", "url", "path", "query", "timestamp", "duration", "response_time"}

  predicate IsIndexed(key: string, value: string) {
    value != "" && !(CONTEXT_PREFIX <= key) && key !in HIGH_CARDINALITY
  }

  function With(labels: Labels, key: string, value: string): Labels {
    if value == "" then labels else labels[key := value]
  }

  function CoreLabels(entry: LogEntry): Labels {
    var labels := With(map[], "level", entry.level);
    var labels := With(labels, "source", entry.source);
    var labels := With(labels, "container", entry.containerName);
    var labels := With(labels, "pod", entry.podName);
    With(labels, "namespace", entry.namespace)
  }

  function CustomLabels(labels: Labels): Labels {
    map k | k in labels && IsIndexed(k, labels[k]) :: labels[k]
  }

  /** The labels of the stream that an entry belongs to. */
  function StreamLabels(entry: LogEntry): Labels {
    var labels := CoreLabels(entry) + CustomLabels(entry.labels);
    if labels == map[] then map["job" := "logsieve"] else labels
  }

  lemma CustomStep(labels: Labels, rest: set<string>, key: string)
    requires key in rest && rest <= labels.Keys
    ensures var done, more := CustomLabels(labels - rest), CustomLabels(labels - (rest - {key}));
      more == if IsIndexed(key, labels[key]) then done[key := labels[key]] else done
  {
  }

  lemma MergeUpdate(a: Labels, b: Labels, key: string, value: string)
    ensures a + b[key := value] == (a + b)[key := value]
  {
  }

  method AddCustomLabels(core: Labels, custom: Labels) returns (labels: Labels)
    ensures labels == core + CustomLabels(custom)
  {
    labels := core;
    var rest := custom;
    assert custom - custom.Keys == map[] && CustomLabels(map[]) == map[];
    hide IsIndexed, CustomLabels;
    while rest != map[]
      invariant rest.Keys <= custom.Keys && forall k :: k in rest ==> rest[k] == custom[k]
      invariant labels == core + CustomLabels(custom - rest.Keys)
      decreases |rest|
    {
      var key :| key in rest;
      var value := rest[key];
      CustomStep(custom, rest.Keys, key);
      MergeUpdate(core, CustomLabels(custom - rest.Keys), key, value);
      if IsIndexed(key, value) {
        labels := labels[key := value];
      }
      rest := rest - {key};
    }
    assert custom - {} == custom;
  }

  method AddCoreLabels(entry: LogEntry) returns (labels: Labels)
    ensures labels == CoreLabels(entry)
  {
    labels := map[];
    if entry.level != "" { labels := labels["level" := entry.level]; }
    if entry.source != "" { labels := labels["source" := entry.source]; }
    if entry.containerName != "" { labels := labels["container" := entry.containerName]; }
    if entry.podName != "" { labels := labels["pod" := entry.podName]; }
    if entry.namespace != "" { labels := labels["namespace" := entry.namespace]; }
  }

  method ExtractLabels(entry: LogEntry) returns (labels: Labels)
    ensures labels == StreamLabels(entry)
  {
    hide CoreLabels, CustomLabels;
    labels := AddCoreLabels(entry);
    labels := AddCustomLabels(labels, entry.labels);
    if labels == map[] {
      labels := labels["job" := "logsieve"];
    }
  }

  lemma CoreValuesAreNotEmpty(entry: LogEntry)
    ensures forall k :: k in CoreLabels(entry) ==> CoreLabels(entry)[k] != ""
  {
  }

  /** Loki asks for at least one label; indexed custom labels win over the core ones. */
  lemma StreamLabelsAreUsable(entry: LogEntry, key: string)
    ensures StreamLabels(entry) != map[]
    ensures key in entry.labels && IsIndexed(key, entry.labels[key]) ==>
      key in StreamLabels(entry) && StreamLabels(entry)[key] == entry.labels[key]
    ensures key in StreamLabels(entry) ==> StreamLabels(entry)[key] != ""
  {
    CoreValuesAreNotEmpty(entry);
    assert key in entry.labels && IsIndexed(key, entry.labels[key]) ==> key in CustomLabels(entry.labels);
    hide CoreLabels;
    var job: Labels := map["job" := "logsieve"];
    assert "job" in job && job != map[];
    assert forall k :: k in CustomLabels(entry.labels) ==> k in CoreLabels(entry) + CustomLabels(entry.labels);
  }

  /** Every field of the entry that is not empty is the value of its label, unless a custom label replaces it. */
  lemma FieldsBecomeLabels(entry: LogEntry)
    ensures var labels, custom := StreamLabels(entry), CustomLabels(entry.labels);
      && (entry.level != "" && "level" !in custom ==> "level" in labels && labels["level"] == entry.level)
      && (entry.source != "" && "source" !in custom ==> "source" in labels && labels["source"] == entry.source)
      && (entry.containerName != "" && "container" !in custom ==>
         "container" in labels && labels["container"] == entry.containerName)
      && (entry.podName != "" && "pod" !in custom ==> "pod" in labels && labels["pod"] == entry.podName)
      && (entry.namespace != "" && "namespace" !in custom ==>
         "namespace" in labels && labels["namespace"] == entry.namespace)
  {
    CoreFields(entry);
    hide CoreLabels, CustomLabels;
    assert forall k :: k in CoreLabels(entry) ==> k in CoreLabels(entry) + CustomLabels(entry.labels);
  }

  lemma CoreFields(entry: LogEntry)
    ensures var core := CoreLabels(entry);
      && (entry.level != "" ==> "level" in core && core["level"] == entry.level)
      && (entry.source != "" ==> "source" in core && core["source"] == entry.source)
      && (entry.containerName != "" ==> "container" in core && core["container"] == entry.containerName)
      && (entry.podName != "" ==> "pod" in core && core["pod"] == entry.podName)
      && (entry.namespace != "" ==> "namespace" in core && core["namespace"] == entry.namespace)
  {
    var level := With(map[], "level", entry.level);
    var source := With(level, "source", entry.source);
    var container := With(source, "container", entry.containerName);
    var pod := With(container, "pod", entry.podName);
    assert CoreLabels(entry) == With(pod, "namespace", entry.namespace);
    assert |"level"| == 5 && |"source"| == 6 && |"container"| == 9 && |"pod"| == 3 && |"namespace"| == 9;
    assert "container"[0] != "namespace"[0];
  }

  /** The labels of a stream, and no others. */
  lemma StreamLabelsExactly(entry: LogEntry, key: string)
    ensures var custom := key in entry.labels && IsIndexed(key, entry.labels[key]);
      && (custom ==> key in StreamLabels(entry) && StreamLabels(entry)[key] == entry.labels[key])
      && (!custom && key in StreamLabels(entry) ==>
            var value := StreamLabels(entry)[key];
            || (key == "level" && value == entry.level) || (key == "source" && value == entry.source)
            || (key == "container" && value == entry.containerName) || (key == "pod" && value == entry.podName)
            || (key == "namespace" && value == entry.namespace)
            || (key == "job" && value == "logsieve" && StreamLabels(entry) == map["job" := "logsieve"]))
  {
    StreamLabelsAreUsable(entry, key);
    CoreFieldsOnly(entry, key);
    hide CoreLabels;
    assert key in CustomLabels(entry.labels) <==> key in entry.labels && IsIndexed(key, entry.labels[key]);
  }

  lemma CoreFieldsOnly(entry: LogEntry, key: string)
    ensures key in CoreLabels(entry) ==>
      var value := CoreLabels(entry)[key];
      || (key == "level" && value == entry.level) || (key == "source" && value == entry.source)
      || (key == "container" && value == entry.containerName) || (key == "pod" && value == entry.podName)
      || (key == "namespace" && value == entry.namespace)
  {
    var level := With(map[], "level", entry.level);
    var source := With(level, "source", entry.source);
    var container := With(source, "container", entry.containerName);
    var pod := With(container, "pod", entry.podName);
    assert CoreLabels(entry) == With(pod, "namespace", entry.namespace);
  }

  /** A custom label with a value is a stream label unless it is one of fourteen, or starts as context does. */
  lemma IndexedExactly(key: string, value: string)
    ensures IsIndexed(key, value) <==>
      && value != "" && !("context_" <= key)
      && key !in ["request_id", "trace_id", "user_id", "session_id", "transaction_id", "correlation_id", "ip_address"]
      && key !in ["user_agent", "url", "path", "query", "timestamp", "duration", "response_time"]
  {
  }

  // Metadata

  predicate IsMetadata(key: string, value: string) {
    (value != "" && key in HIGH_CARDINALITY) || CONTEXT_PREFIX <= key
  }

  /** The custom labels that are sent beside the text, when structured metadata is in use. */
  function Metadata(labels: Labels): Labels {
    map k | k in labels && IsMetadata(k, labels[k]) :: labels[k]
  }

  /** The two loops of the original, one after the other: high-cardinality labels, then context labels. */
  method ExtractStructuredMetadata(entry: LogEntry) returns (metadata: Labels)
    ensures metadata == Metadata(entry.labels)
  {
    var high := SelectLabels(entry.labels, (k: string, v: string) => v != "" && k in HIGH_CARDINALITY);
    var context := SelectLabels(entry.labels, (k: string, v: string) => CONTEXT_PREFIX <= k);
    metadata := high + context;
  }

  method SelectLabels(labels: Labels, chosen: (string, string) -> bool) returns (selected: Labels)
    ensures selected == map k | k in labels && chosen(k, labels[k]) :: labels[k]
  {
    selected := map[];
    var rest := labels;
    while rest != map[]
      invariant rest.Keys <= labels.Keys && forall k :: k in rest ==> rest[k] == labels[k]
      invariant selected == map k | k in labels && k !in rest && chosen(k, labels[k]) :: labels[k]
      decreases |rest|
    {
      var key :| key in rest;
      if chosen(key, rest[key]) {
        selected := selected[key := rest[key]];
      }
      rest := rest - {key};
    }
  }

  /** No custom label with a value is lost, and none is sent twice: it is indexed or it is metadata. */
  lemma LabelsAreIndexedOrMetadata(labels: Labels, key: string)
    requires key in labels && labels[key] != ""
    ensures key in CustomLabels(labels) <==> key !in Metadata(labels)
  {
  }

  // Streams

  /** The text of an entry; its metadata are empty when there are none to send. */
  datatype Value = Value(timestamp: int, message: string, metadata: Labels)

  datatype Stream = Stream(labels: Labels, values: seq<Value>)

  function ValueOf(structured: bool, entry: LogEntry): Value {
    Value(entry.timestamp, entry.message, if structured then Metadata(entry.labels) else map[])
  }

  /** The values of the entries whose keys are the given one, in order. */
  ghost function ValuesUnder(structured: bool, entries: seq<LogEntry>, keys: seq<string>, key: string): seq<Value>
    requires |entries| == |keys|
  {
    if entries == [] then []
    else
      var n := |entries| - 1;
      ValuesUnder(structured, entries[..n], keys[..n], key)
        + (if keys[n] == key then [ValueOf(structured, entries[n])] else [])
  }

  /** The values of the entries that have the given stream labels, in order. */
  ghost function ValuesWith(structured: bool, entries: seq<LogEntry>, labels: Labels): seq<Value> {
    if entries == [] then []
    else
      var n := |entries| - 1;
      ValuesWith(structured, entries[..n], labels)
        + (if StreamLabels(entries[n]) == labels then [ValueOf(structured, entries[n])] else [])
  }

  ghost function PositionsWith(entries: seq<LogEntry>, labels: Labels): set<nat> {
    set i: nat | i < |entries| && StreamLabels(entries[i]) == labels
  }

  /** The values are those of the entries with these labels, in the order of the batch, with their time and text. */
  lemma {:induction false} ValuesInOrder(structured: bool, entries: seq<LogEntry>, labels: Labels)
      returns (kept: seq<LogEntry>)
    ensures Keeps(entries, PositionsWith(entries, labels), kept)
    ensures var values := ValuesWith(structured, entries, labels);
      && |values| == |kept|
      && forall j :: 0 <= j < |kept| ==>
           && values[j].timestamp == kept[j].timestamp && values[j].message == kept[j].message
           && (!structured ==> values[j].metadata == map[])
           && (structured ==> values[j].metadata == Metadata(kept[j].labels))
  {
    hide StreamLabels, Keeps, Metadata;
    if entries == [] {
      assert PositionsWith([], labels) == {};
      KeepsNothing<LogEntry>();
      kept := [];
    } else {
      var n := |entries| - 1;
      var init, more := entries[..n], StreamLabels(entries[n]) == labels;
      kept := ValuesInOrder(structured, init, labels);
      KeepsStep(init, PositionsWith(init, labels), kept, entries[n], more);
      kept := kept + if more then [entries[n]] else [];
      assert PositionsWith(entries, labels)
        == if more then PositionsWith(init, labels) + {n} else PositionsWith(init, labels);
      assert init + [entries[n]] == entries;
    }
  }

  /** The metadata are the high-cardinality labels with a value and the context labels, with any value. */
  lemma MetadataExactly(labels: Labels, key: string)
    ensures key in Metadata(labels) <==>
      key in labels && ("context_" <= key || (labels[key] != "" && !IsIndexed(key, labels[key])))
    ensures key in Metadata(labels) ==> Metadata(labels)[key] == labels[key]
  {
  }

  ghost predicate AreKeysOf(printable: char -> bool, entries: seq<LogEntry>, keys: seq<string>) {
    |keys| == |entries| && forall i :: 0 <= i < |entries| ==> IsStreamKey(printable, StreamLabels(entries[i]), keys[i])
  }

  ghost predicate FirstUnder(entries: seq<LogEntry>, keys: seq<string>, key: string, i: nat)
    requires |keys| == |entries|
  {
    i < |keys| && keys[i] == key && key !in keys[..i]
  }

  /** The labels of the first entry under the key, and the values of all entries under it. */
  ghost predicate IsStreamUnder(structured: bool, entries: seq<LogEntry>, keys: seq<string>, key: string,
      stream: Stream)
    requires |keys| == |entries|
  {
    && stream.values == ValuesUnder(structured, entries, keys, key)
    && exists i: nat :: FirstUnder(entries, keys, key, i) && stream.labels == StreamLabels(entries[i])
  }

  ghost predicate IsGrouping(structured: bool, entries: seq<LogEntry>, keys: seq<string>,
      streams: map<string, Stream>) {
    && |keys| == |entries|
    && (forall key :: key in streams <==> key in keys)
    && (forall key :: key in streams ==> IsStreamUnder(structured, entries, keys, key, streams[key]))
  }

  lemma OldStream(structured: bool, entries: seq<LogEntry>, keys: seq<string>, key: string, stream: Stream,
      entry: LogEntry, newKey: string)
    requires |keys| == |entries| && IsStreamUnder(structured, entries, keys, key, stream)
    ensures IsStreamUnder(structured, entries + [entry], keys + [newKey], key,
      stream.(values := stream.values + (if newKey == key then [ValueOf(structured, entry)] else [])))
  {
  }

  lemma NewStream(structured: bool, entries: seq<LogEntry>, keys: seq<string>, entry: LogEntry, key: string)
    requires |keys| == |entries| && key !in keys
    ensures IsStreamUnder(structured, entries + [entry], keys + [key], key,
      Stream(StreamLabels(entry), [ValueOf(structured, entry)]))
  {
    hide StreamLabels;
    var es, ks := entries + [entry], keys + [key];
    assert es[..|entries|] == entries && ks[..|keys|] == keys;
    NothingUnder(structured, entries, keys, key);
    assert FirstUnder(es, ks, key, |entries|);
  }

  lemma {:induction false} NothingUnder(structured: bool, entries: seq<LogEntry>, keys: seq<string>, key: string)
    requires |entries| == |keys| && key !in keys
    ensures ValuesUnder(structured, entries, keys, key) == []
  {
    if entries != [] {
      NothingUnder(structured, entries[..|entries| - 1], keys[..|entries| - 1], key);
    }
  }

  /** Puts one entry into its stream. */
  function PutEntry(structured: bool, streams: map<string, Stream>, entry: LogEntry, key: string): map<string, Stream> {
    var stream := if key in streams then streams[key] else Stream(StreamLabels(entry), []);
    streams[key := stream.(values := stream.values + [ValueOf(structured, entry)])]
  }

  lemma GroupingStep(structured: bool, entries: seq<LogEntry>, keys: seq<string>, streams: map<string, Stream>,
      entry: LogEntry, key: string)
    requires IsGrouping(structured, entries, keys, streams)
    ensures IsGrouping(structured, entries + [entry], keys + [key], PutEntry(structured, streams, entry, key))
  {
    hide IsStreamUnder, StreamLabels;
    var after := PutEntry(structured, streams, entry, key);
    forall k | k in after ensures IsStreamUnder(structured, entries + [entry], keys + [key], k, after[k]) {
      if k in streams {
        assert streams[k].(values := streams[k].values + []) == streams[k];
        OldStream(structured, entries, keys, k, streams[k], entry, key);
      } else {
        assert [] + [ValueOf(structured, entry)] == [ValueOf(structured, entry)];
        NewStream(structured, entries, keys, entry, key);
      }
    }
  }

  ghost predicate IsListing(streams: map<string, Stream>, order: seq<string>, list: seq<Stream>) {
    && |order| == |list|
    && (forall k :: k in streams <==> k in order)
    && (forall i, j :: 0 <= i < j < |order| ==> order[i] != order[j])
    && (forall i :: 0 <= i < |order| ==> order[i] in streams && list[i] == streams[order[i]])
  }

  method ListStreams(streamMap: map<string, Stream>) returns (streams: seq<Stream>)
    ensures exists order :: IsListing(streamMap, order, streams)
  {
    streams := [];
    ghost var order := [];
    var rest := streamMap;
    while rest != map[]
      invariant rest.Keys <= streamMap.Keys && forall k :: k in rest ==> rest[k] == streamMap[k]
      invariant IsListing(streamMap - rest.Keys, order, streams)
      decreases |rest|
    {
      var k :| k in rest;
      streams, order := streams + [rest[k]], order + [k];
      rest := rest - {k};
    }
    assert streamMap - {} == streamMap;
  }

  // Streams are the classes of equal labels

  /** The names of all stream labels of the batch follow one convention. */
  ghost predicate AllFollow(naming: Naming, entries: seq<LogEntry>) {
    forall i :: 0 <= i < |entries| ==> NamesFollow(naming, StreamLabels(entries[i]))
  }

  lemma CoreNames(naming: Naming, entry: LogEntry)
    ensures NamesFollow(naming, CoreLabels(entry))
  {
    assert forall k :: k in CoreLabels(entry) ==> k in ["level", "source", "container", "pod", "namespace"];
  }

  /** The names that an entry's own fields become follow every convention. */
  lemma StreamNames(naming: Naming, entry: LogEntry)
    requires NamesFollow(naming, entry.labels)
    ensures NamesFollow(naming, StreamLabels(entry))
  {
    CoreNames(naming, entry);
  }

  lemma SameKeySameLabels(printable: char -> bool, naming: Naming, entries: seq<LogEntry>, keys: seq<string>, i: nat,
      j: nat)
    requires AllFollow(naming, entries) && AreKeysOf(printable, entries, keys) && i < |entries| && j < |entries|
    ensures keys[i] == keys[j] <==> StreamLabels(entries[i]) == StreamLabels(entries[j])
  {
    hide StreamLabels;
    StreamKeyIsInjective(printable, naming, StreamLabels(entries[i]), StreamLabels(entries[j]), keys[i], keys[j]);
  }

  lemma {:induction false} ValuesByLabels(structured: bool, entries: seq<LogEntry>, keys: seq<string>, key: string,
      labels: Labels)
    requires |entries| == |keys|
    requires forall j :: 0 <= j < |entries| ==> (keys[j] == key <==> StreamLabels(entries[j]) == labels)
    ensures ValuesUnder(structured, entries, keys, key) == ValuesWith(structured, entries, labels)
  {
    if entries != [] {
      var n := |entries| - 1;
      ValuesByLabels(structured, entries[..n], keys[..n], key, labels);
    }
  }

  /** The streams partition the batch: one for every label set that occurs, with exactly its entries in order. */
  ghost predicate IsPartition(structured: bool, entries: seq<LogEntry>, streams: seq<Stream>) {
    && (forall i, j :: 0 <= i < j < |streams| ==> streams[i].labels != streams[j].labels)
    && (forall i :: 0 <= i < |streams| ==>
       streams[i].values == ValuesWith(structured, entries, streams[i].labels) && streams[i].values != [])
    && (forall n :: 0 <= n < |entries| ==> HasStream(streams, StreamLabels(entries[n])))
  }

  ghost predicate HasStream(streams: seq<Stream>, labels: Labels) {
    exists i :: 0 <= i < |streams| && streams[i].labels == labels
  }

  lemma LabelsUnder(structured: bool, printable: char -> bool, naming: Naming, entries: seq<LogEntry>,
      keys: seq<string>, key: string, stream: Stream)
    requires AllFollow(naming, entries) && AreKeysOf(printable, entries, keys)
      && IsStreamUnder(structured, entries, keys, key, stream)
    ensures forall j :: 0 <= j < |entries| ==> (keys[j] == key <==> StreamLabels(entries[j]) == stream.labels)
    ensures stream.values == ValuesWith(structured, entries, stream.labels) && stream.values != []
  {
    hide StreamLabels, AllFollow, AreKeysOf, ValuesUnder;
    assert |keys| == |entries| by { KeysMatchEntries(printable, entries, keys); }
    var i: nat :| FirstUnder(entries, keys, key, i) && stream.labels == StreamLabels(entries[i]);
    forall j: nat | j < |entries| ensures keys[j] == key <==> StreamLabels(entries[j]) == stream.labels {
      SameKeySameLabels(printable, naming, entries, keys, i, j);
    }
    ValuesByLabels(structured, entries, keys, key, stream.labels);
    SomethingWith(structured, entries, i);
  }

  lemma KeysMatchEntries(printable: char -> bool, entries: seq<LogEntry>, keys: seq<string>)
    requires AreKeysOf(printable, entries, keys)
    ensures |keys| == |entries|
  {
  }

  lemma {:induction false} SomethingWith(structured: bool, entries: seq<LogEntry>, n: nat)
    requires n < |entries|
    ensures ValuesWith(structured, entries, StreamLabels(entries[n])) != []
  {
    if n < |entries| - 1 {
      SomethingWith(structured, entries[..|entries| - 1], n);
    }
  }

  lemma GroupingIsPartition(structured: bool, printable: char -> bool, naming: Naming, entries: seq<LogEntry>,
      keys: seq<string>, grouped: map<string, Stream>, order: seq<string>, streams: seq<Stream>)
    requires AllFollow(naming, entries) && AreKeysOf(printable, entries, keys)
    requires IsGrouping(structured, entries, keys, grouped) && IsListing(grouped, order, streams)
    ensures IsPartition(structured, entries, streams)
  {
    hide StreamLabels, AllFollow, AreKeysOf, ValuesWith;
    forall i | 0 <= i < |order|
      ensures order[i] in keys && IsStreamUnder(structured, entries, keys, order[i], streams[i])
    {
      assert order[i] in order;
    }
    hide IsStreamUnder;
    forall i | 0 <= i < |streams|
      ensures forall j :: 0 <= j < |entries| ==>
        (keys[j] == order[i] <==> StreamLabels(entries[j]) == streams[i].labels)
      ensures streams[i].values == ValuesWith(structured, entries, streams[i].labels) && streams[i].values != []
    {
      LabelsUnder(structured, printable, naming, entries, keys, order[i], streams[i]);
    }
    forall i, j | 0 <= i < j < |streams| ensures streams[i].labels != streams[j].labels {
      var n :| 0 <= n < |keys| && keys[n] == order[j];
    }
    forall n | 0 <= n < |entries| ensures HasStream(streams, StreamLabels(entries[n])) {
      assert keys[n] in keys && keys[n] in order;
      var i :| 0 <= i < |order| && order[i] == keys[n];
      assert streams[i].labels == StreamLabels(entries[n]);
    }
  }

  /** The streams of the entries' keys, in some order. */
  ghost predicate GroupsByKey(structured: bool, printable: char -> bool, entries: seq<LogEntry>, streams: seq<Stream>) {
    exists keys, grouped, order ::
      AreKeysOf(printable, entries, keys) && IsGrouping(structured, entries, keys, grouped)
        && IsListing(grouped, order, streams)
  }

  /** All names follow one of the conventions that keep names and values apart. */
  ghost predicate IsReadable(entries: seq<LogEntry>) { exists naming :: AllFollow(naming, entries) }

  /** One stream per distinct key; with readable label names, one per distinct label set. */
  method GroupByLabels(structured: bool, printable: char -> bool, entries: seq<LogEntry>) returns (streams: seq<Stream>)
    ensures GroupsByKey(structured, printable, entries, streams)
    ensures IsReadable(entries) ==> IsPartition(structured, entries, streams)
  {
    hide IsStreamKey, StreamLabels, IsPartition, IsListing, IsStreamUnder, Metadata;
    var streamMap: map<string, Stream> := map[];
    ghost var keys := [];
    for n := 0 to |entries|
      invariant AreKeysOf(printable, entries[..n], keys) && IsGrouping(structured, entries[..n], keys, streamMap)
    {
      var labels := ExtractLabels(entries[n]);
      var streamKey := CreateStreamKey(printable, labels);
      GroupingStep(structured, entries[..n], keys, streamMap, entries[n], streamKey);
      assert entries[..n + 1] == entries[..n] + [entries[n]];
      ghost var after := PutEntry(structured, streamMap, entries[n], streamKey);
      if streamKey !in streamMap {
        streamMap := streamMap[streamKey := Stream(labels, [])];
      }
      var stream := streamMap[streamKey];
      var metadata := map[];
      if structured {
        metadata := ExtractStructuredMetadata(entries[n]);
      }
      var logValue := Value(entries[n].timestamp, entries[n].message, metadata);
      streamMap := streamMap[streamKey := stream.(values := stream.values + [logValue])];
      assert streamMap == after;
      keys := keys + [streamKey];
    }
    assert entries[..|entries|] == entries;
    streams := ListStreams(streamMap);
    ghost var order :| IsListing(streamMap, order, streams);
    if naming :| AllFollow(naming, entries) {
      GroupingIsPartition(structured, printable, naming, entries, keys, streamMap, order, streams);
    }
  }

  // Names over an alphabet

  ghost predicate BatchOver(alphabet: set<char>, entries: seq<LogEntry>) {
    forall i :: 0 <= i < |entries| ==> NamesOver(alphabet, entries[i].labels)
  }

  function Labelled(labels: Labels): LogEntry { LogEntry(0, "", "", "", "", "", "", labels) }

  lemma LabelledStream(labels: Labels)
    requires labels != map[] && forall k :: k in labels ==> IsIndexed(k, labels[k])
    ensures StreamLabels(Labelled(labels)) == labels
  {
    assert CoreLabels(Labelled(labels)) == map[];
    assert CustomLabels(labels) == labels;
  }

  /** Two entries with different labels and the same key end up in one stream. */
  lemma CollisionJoinsStreams(structured: bool, printable: char -> bool, a: LogEntry, b: LogEntry, key: string)
      returns (streams: seq<Stream>)
    requires StreamLabels(a) != StreamLabels(b)
    requires IsStreamKey(printable, StreamLabels(a), key) && IsStreamKey(printable, StreamLabels(b), key)
    ensures GroupsByKey(structured, printable, [a, b], streams) && !IsPartition(structured, [a, b], streams)
  {
    hide StreamLabels, IsStreamKey, ValueOf;
    var entries, keys := [a, b], [key, key];
    var stream := Stream(StreamLabels(a), [ValueOf(structured, a), ValueOf(structured, b)]);
    var grouped := map[key := stream];
    streams := [stream];
    assert entries[..1] == [a] && keys[..1] == [key] && [a][..0] == [] && [key][..0] == [];
    assert ValuesUnder(structured, [a], [key], key) == [ValueOf(structured, a)];
    assert ValuesUnder(structured, entries, keys, key) == stream.values;
    assert FirstUnder(entries, keys, key, 0);
    assert AreKeysOf(printable, entries, keys) && IsGrouping(structured, entries, keys, grouped);
    assert IsListing(grouped, [key], streams);
    assert entries[1] == b && !HasStream(streams, StreamLabels(b));
  }

  /** The entries of the two colliding label sets. */
  lemma Collision(structured: bool, printable: char -> bool) returns (a: LogEntry, b: LogEntry, streams: seq<Stream>)
    requires printable(',')
    ensures BatchOver(READ_AS_SYNTAX, [a, b])
    ensures GroupsByKey(structured, printable, [a, b], streams) && !IsPartition(structured, [a, b], streams)
  {
    var u, v := ",", "v";
    var two, one := TwoLabels(u, v), OneLabel(printable, u, v);
    NamesOfCollision(printable, v);
    hide Swallowing, BatchOver, NamesOver, GroupsByKey, IsPartition, StreamLabels, IsStreamKey;
    a, b := Labelled(two), Labelled(one);
    KeysCanCollide(printable, u, v);
    LabelledStream(two);
    LabelledStream(one);
    var key :| IsStreamKey(printable, two, key) && IsStreamKey(printable, one, key);
    streams := CollisionJoinsStreams(structured, printable, a, b, key);
  }

  lemma NamesOfCollision(printable: char -> bool, v: string)
    requires printable(',') && v != ""
    ensures var two, one := TwoLabels(",", v), OneLabel(printable, ",", v);
      && BatchOver(READ_AS_SYNTAX, [Labelled(two), Labelled(one)])
      && two != map[] && one != map[]
      && (forall k :: k in two ==> IsIndexed(k, two[k])) && (forall k :: k in one ==> IsIndexed(k, one[k]))
  {
    var u, name := ",", Swallowing(printable, ",");
    assert u[1..] == "" && QuoteBody(printable, u) == ",";
    assert name == ",=\",\",=";
    StartsWithComma(u);
    StartsWithComma(name);
    assert "," in TwoLabels(u, v) && name in OneLabel(printable, u, v);
    assert IsIndexed("=", v);
  }

  lemma StartsWithComma(key: string)
    requires key != "" && key[0] == ','
    ensures key !in HIGH_CARDINALITY && !(CONTEXT_PREFIX <= key)
  {
  }

  /** Batches with label names over an alphabet are always partitioned iff it lacks the equals sign, the quote
    * or the comma. */
  lemma PartitionOverIff(structured: bool, printable: char -> bool, alphabet: set<char>)
    requires printable(',')
    ensures !(READ_AS_SYNTAX <= alphabet) <==>
      forall entries, streams ::
        BatchOver(alphabet, entries) && GroupsByKey(structured, printable, entries, streams) ==>
          IsPartition(structured, entries, streams)
  {
    hide IsPartition, StreamLabels, AreKeysOf, IsGrouping, IsListing;
    if READ_AS_SYNTAX <= alphabet {
      var a, b, streams := Collision(structured, printable);
      assert BatchOver(alphabet, [a, b]);
    } else {
      var naming := AlphabetFollows(alphabet);
      forall entries, streams | BatchOver(alphabet, entries) && GroupsByKey(structured, printable, entries, streams)
        ensures IsPartition(structured, entries, streams)
      {
        forall i | 0 <= i < |entries| ensures NamesFollow(naming, StreamLabels(entries[i])) {
          StreamNames(naming, entries[i]);
        }
        var keys, grouped, order :|
          AreKeysOf(printable, entries, keys) && IsGrouping(structured, entries, keys, grouped)
            && IsListing(grouped, order, streams);
        GroupingIsPartition(structured, printable, naming, entries, keys, grouped, order, streams);
      }
    }
  }
}
