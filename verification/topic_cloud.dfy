/** The topic cloud of a video: topic frequencies, the size and colour band
    of each distinct topic, the search filter and the selection toggle. */
module TopicCloud {
  import opened Core
  import opened Text

  /** `getTopicFrequency`: the distinct topics in first-occurrence order
      (the key order of the object) and how often each occurs. */
  datatype Frequency = Frequency(keys: seq<string>, count: map<string, nat>)

  predicate Distinct(ks: seq<string>) {
    forall i, j | 0 <= i < j < |ks| :: ks[i] != ks[j]
  }

  function Occurrences(topics: seq<string>, t: string): nat
  {
    if |topics| == 0 then 0
    else Occurrences(topics[..|topics| - 1], t) + (if topics[|topics| - 1] == t then 1 else 0)
  }

  function FrequencyOf(topics: seq<string>): (f: Frequency)
    ensures Distinct(f.keys)
    ensures forall k :: k in f.count <==> k in f.keys
    ensures forall t :: t in f.count <==> t in topics
    ensures forall t | t in f.count :: f.count[t] == Occurrences(topics, t) && f.count[t] >= 1
  {
    if |topics| == 0 then Frequency([], map[])
    else
      var prev := FrequencyOf(topics[..|topics| - 1]);
      var t := topics[|topics| - 1];
      assert forall x :: x in topics <==> x in topics[..|topics| - 1] || x == t;
      if t in prev.count then Frequency(prev.keys, prev.count[t := prev.count[t] + 1])
      else
        OccurrencesAbsent(topics[..|topics| - 1], t);
        Frequency(prev.keys + [t], prev.count[t := 1])
  }

  lemma {:induction false} OccurrencesAbsent(topics: seq<string>, t: string)
    requires t !in topics
    ensures Occurrences(topics, t) == 0
  {
    if |topics| > 0 {
      assert topics[..|topics| - 1] <= topics;
      OccurrencesAbsent(topics[..|topics| - 1], t);
    }
  }

  function SumCounts(keys: seq<string>, count: map<string, nat>): nat
    requires forall k | k in keys :: k in count
  {
    if |keys| == 0 then 0 else SumCounts(keys[..|keys| - 1], count) + count[keys[|keys| - 1]]
  }

  /** The frequencies add up to the number of topics. */
  lemma {:induction false} FrequenciesSumToLength(topics: seq<string>)
    ensures var f := FrequencyOf(topics); SumCounts(f.keys, f.count) == |topics|
  {
    if |topics| > 0 {
      var init := topics[..|topics| - 1];
      FrequenciesSumToLength(init);
      SumStep(FrequencyOf(init), topics[|topics| - 1]);
    }
  }

  /** One more topic adds one to the sum of the frequencies. */
  lemma {:induction false} SumStep(prev: Frequency, t: string)
    requires Distinct(prev.keys) && forall k :: k in prev.count <==> k in prev.keys
    ensures var f := if t in prev.count then Frequency(prev.keys, prev.count[t := prev.count[t] + 1])
                     else Frequency(prev.keys + [t], prev.count[t := 1]);
      SumCounts(f.keys, f.count) == SumCounts(prev.keys, prev.count) + 1
  {
    if t in prev.count {
      SumBump(prev.keys, prev.count, t);
    } else {
      var keys := prev.keys + [t];
      SumUnchanged(prev.keys, prev.count, t, 1);
      assert keys[..|keys| - 1] == prev.keys;
    }
  }

  /** Raising the count of one listed key by one raises the sum by one. */
  lemma {:induction false} SumBump(keys: seq<string>, count: map<string, nat>, t: string)
    requires Distinct(keys) && (forall k | k in keys :: k in count) && t in keys
    ensures SumCounts(keys, count[t := count[t] + 1]) == SumCounts(keys, count) + 1
  {
    var last := keys[|keys| - 1];
    var init := keys[..|keys| - 1];
    if last == t {
      assert t !in init;
      SumUnchanged(init, count, t, count[t] + 1);
    } else {
      assert t in init;
      SumBump(init, count, t);
    }
  }

  /** Changing the count of a key that is not listed leaves the sum alone. */
  lemma {:induction false} SumUnchanged(keys: seq<string>, count: map<string, nat>, t: string, n: nat)
    requires (forall k | k in keys :: k in count) && t !in keys
    ensures SumCounts(keys, count[t := n]) == SumCounts(keys, count)
  {
    if |keys| > 0 {
      SumUnchanged(keys[..|keys| - 1], count, t, n);
    }
  }

  const MinSize := 12.0
  const MaxSize := 24.0

  /** `getTopicSize`: from 12 to 24 in proportion to the frequency. */
  function TopicSize(frequency: real, maxFrequency: real): (s: real)
    requires maxFrequency > 0.0
    ensures 0.0 < frequency <= maxFrequency ==> MinSize < s <= MaxSize
    ensures frequency == maxFrequency ==> s == MaxSize
  {
    var ratio := frequency / maxFrequency;
    assert 0.0 < frequency <= maxFrequency ==> 0.0 < ratio <= 1.0 by {
      if 0.0 < frequency <= maxFrequency {
        assert ratio * maxFrequency == frequency;
      }
    }
    MinSize + (MaxSize - MinSize) * ratio
  }

  /** `getTopicColor`: four bands of `frequency / maxFrequency`, 3 the strongest. */
  function ColourBand(frequency: real, maxFrequency: real): (b: nat)
    requires maxFrequency > 0.0
    ensures b <= 3
  {
    var ratio := frequency / maxFrequency;
    if ratio > 0.7 then 3 else if ratio > 0.4 then 2 else if ratio > 0.2 then 1 else 0
  }

  /** A more frequent topic is never in a weaker band, and the most frequent is in the strongest. */
  lemma {:induction false} ColourBandMonotone(f: real, g: real, maxFrequency: real)
    requires maxFrequency > 0.0 && f <= g
    ensures ColourBand(f, maxFrequency) <= ColourBand(g, maxFrequency)
    ensures ColourBand(maxFrequency, maxFrequency) == 3
  {
    var a := f / maxFrequency;
    var b := g / maxFrequency;
    assert a * maxFrequency == f && b * maxFrequency == g;
    assert a <= b;
  }

  /** `Math.max(...Object.values(frequency))` of a non-empty cloud. */
  function MaxFrequency(keys: seq<string>, count: map<string, nat>): (m: nat)
    requires |keys| > 0 && forall k | k in keys :: k in count
    ensures forall k | k in keys :: count[k] <= m
    ensures exists k | k in keys :: count[k] == m
  {
    var last := keys[|keys| - 1];
    if |keys| == 1 then count[last]
    else
      var rest := MaxFrequency(keys[..|keys| - 1], count);
      assert forall k | k in keys :: k in keys[..|keys| - 1] || k == last;
      if count[last] > rest then count[last] else rest
  }

  /** Every distinct topic of a non-empty list is drawn between the two
      sizes, the most frequent ones at the largest, and every band is one
      of the four. */
  lemma {:induction false} CloudSizes(topics: seq<string>, t: string)
    requires t in topics
    ensures var f := FrequencyOf(topics);
      |f.keys| > 0 && t in f.keys &&
      var m := MaxFrequency(f.keys, f.count);
      m >= 1 &&
      MinSize < TopicSize(f.count[t] as real, m as real) <= MaxSize &&
      (f.count[t] == m ==> ColourBand(f.count[t] as real, m as real) == 3)
  {
    var f := FrequencyOf(topics);
    assert t in f.count;
    var m := MaxFrequency(f.keys, f.count);
    assert f.count[t] <= m;
    ColourBandMonotone(0.0, 0.0, m as real);
  }

  /** The index of the first most frequent key: what the "Most Frequent"
      statistic's `reduce` keeps, since it only moves on a strictly larger
      count. */
  function FirstMostFrequent(keys: seq<string>, count: map<string, nat>): (i: nat)
    requires |keys| > 0 && forall k | k in keys :: k in count
    ensures i < |keys|
    ensures forall j | 0 <= j < |keys| :: count[keys[j]] <= count[keys[i]]
    ensures forall j | 0 <= j < i :: count[keys[j]] < count[keys[i]]
  {
    if |keys| == 1 then 0
    else
      var prev := FirstMostFrequent(keys[..|keys| - 1], count);
      if count[keys[|keys| - 1]] > count[keys[prev]] then |keys| - 1 else prev
  }

  /** What the "Most Frequent" cell shows: a topic, or a thrown `TypeError`. */
  datatype Shown = Shows(topic: string) | Threw

  /** The "Most Frequent" cell as written: `reduce` without an initial value
      on the distinct topics, which throws on an empty list. */
  function MostFrequentCell(keys: seq<string>, count: map<string, nat>): (r: Shown)
    requires forall k | k in keys :: k in count
    ensures r.Threw? <==> |keys| == 0
  {
    if |keys| == 0 then Threw else Shows(keys[FirstMostFrequent(keys, count)])
  }

  /** A video whose topic extraction failed has no topics, so its cloud's
      "Most Frequent" cell throws instead of rendering. */
  lemma {:induction false} EmptyCloudThrows()
    ensures var f := FrequencyOf([]); MostFrequentCell(f.keys, f.count) == Threw
  {
  }

  /** The cell as evidently intended: no topic for an empty cloud, otherwise
      the first topic with the highest count. */
  function MostFrequentTopic(keys: seq<string>, count: map<string, nat>): (r: Option<string>)
    requires forall k | k in keys :: k in count
    ensures r.None? <==> |keys| == 0
    ensures r.Some? ==> r.value in keys && forall k | k in keys :: count[k] <= count[r.value]
  {
    if |keys| == 0 then None else Some(keys[FirstMostFrequent(keys, count)])
  }

  /** The intended cell never throws: it is empty exactly for an empty cloud,
      and otherwise shows a topic occurring as often as any other, the first
      such in key order; where the written cell renders, they agree. */
  lemma {:induction false} MostFrequentTopicIsMaximal(topics: seq<string>)
    ensures var f := FrequencyOf(topics); var r := MostFrequentTopic(f.keys, f.count);
      (r.None? <==> |topics| == 0) &&
      (r.Some? ==> r.value in topics && forall t | t in topics :: Occurrences(topics, t) <= Occurrences(topics, r.value)) &&
      (r.Some? ==> MostFrequentCell(f.keys, f.count) == Shows(r.value))
  {
    var f := FrequencyOf(topics);
    if |topics| > 0 {
      assert topics[0] in f.count;
      var i := FirstMostFrequent(f.keys, f.count);
      forall t | t in topics
        ensures Occurrences(topics, t) <= Occurrences(topics, f.keys[i])
      {
        assert t in f.keys;
        var j :| 0 <= j < |f.keys| && f.keys[j] == t;
      }
    }
  }

  /** The search box: distinct topics containing the term, ignoring case;
      an empty term keeps them all. */
  function Filtered(unique: seq<string>, term: string): (r: seq<string>)
    ensures |term| == 0 ==> r == unique
    ensures forall t :: t in r <==> t in unique && ContainsIgnoreCase(t, term)
  {
    if |term| == 0 then
      assert forall t | t in unique :: ContainsIgnoreCase(t, term) by {
        forall t | t in unique ensures ContainsIgnoreCase(t, term) { ContainsEmpty(Lower(t)); }
      }
      unique
    else Filter(unique, t => ContainsIgnoreCase(t, term))
  }

  /** `handleTopicClick`: clicking the selected topic clears the selection,
      any other topic becomes the selection. */
  function Toggle(selected: Option<string>, topic: string): (r: Option<string>)
    ensures r == Some(topic) <==> selected != Some(topic)
    ensures r.None? <==> selected == Some(topic)
  {
    if selected == Some(topic) then None else Some(topic)
  }

  /** Two clicks on the same topic restore a selection that was empty or that topic. */
  lemma {:induction false} ToggleTwice(selected: Option<string>, topic: string)
    requires selected.None? || selected == Some(topic)
    ensures Toggle(Toggle(selected, topic), topic) == selected
  {
  }
}
