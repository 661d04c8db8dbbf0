/**
  `load_and_preprocess` end to end (without the scaler), and the positional
  attachment of cluster labels to its result.
 */
module Preprocess {
  import opened Wrappers
  import opened TextOrder
  import opened Aggregation
  import opened Subsequences
  import OutlierFilter

  /** One row of the frame projected onto `['Amount','Frequency','Most_Recent_Engagement']`. */
  datatype Features = Features(amount: real, frequency: nat, mostRecentEngagement: int)

  function FeaturesOf(c: Customer): Features
  {
    Features(c.amount, c.frequency, c.mostRecentEngagement)
  }

  /** `f` holds the three aggregates of customer `id` of the raw rows. */
  predicate Describes(rows: seq<Transaction>, id: string, f: Features)
  {
    HasCustomer(rows, id) && f == Features(AmountOf(rows, id), FrequencyOf(rows, id), RecencyOf(rows, id))
  }

  /** Line 59: the three metric columns, row for row and in order. */
  function Project(cs: seq<Customer>): (fs: seq<Features>)
    ensures |fs| == |cs| && forall i :: 0 <= i < |cs| ==> fs[i] == FeaturesOf(cs[i])
  {
    seq(|cs|, i requires 0 <= i < |cs| => FeaturesOf(cs[i]))
  }

  /**
    Lines 26-59. There is no result for an empty input, where the latest
    invoice date is undefined. Otherwise the result is the projection of the
    outlier passes' survivors, in the merged frame's order: at least one
    customer, every customer of a frame of at most 12, and every row
    carrying the aggregates of one input customer.
   */
  function LoadAndPreprocess(rows: seq<Transaction>): (r: Option<seq<Features>>)
    ensures r.None? <==> rows == []
    ensures r.Some? ==> 0 < |r.value| <= |CustomerIds(rows)|
    ensures r.Some? ==> r.value == Project(OutlierFilter.RemoveOutliers(Aggregate(rows).value))
    ensures r.Some? && |CustomerIds(rows)| <= 12 ==> r.value == Project(Aggregate(rows).value)
    ensures r.Some? && |CustomerIds(rows)| <= 12 ==> |r.value| == |CustomerIds(rows)|
    ensures r.Some? ==> forall f :: f in r.value ==>
      exists id :: Describes(rows, id, f)
  {
    if rows == [] then None
    else
      var fs := Project(OutlierFilter.RemoveOutliers(Aggregate(rows).value));
      SurvivorCount(rows);
      SurvivorProvenance(rows);
      assert |CustomerIds(rows)| <= 12 ==> fs == Project(Aggregate(rows).value) by {
        if |CustomerIds(rows)| <= 12 {
          OutlierFilter.SmallFrameNoOutliers(Aggregate(rows).value);
        }
      }
      Some(fs)
  }

  lemma SurvivorCount(rows: seq<Transaction>)
    requires rows != []
    ensures var n := |OutlierFilter.RemoveOutliers(Aggregate(rows).value)|;
      0 < n <= |CustomerIds(rows)| && (|CustomerIds(rows)| <= 12 ==> n == |CustomerIds(rows)|)
  {
    var cs := Aggregate(rows).value;
    var kept := OutlierFilter.RemoveOutliers(cs);
    SubsequenceMultiset(kept, cs);
    assert |kept| == |multiset(kept)| <= |multiset(cs)| == |cs|;
    if |cs| <= 12 {
      OutlierFilter.SmallFrameNoOutliers(cs);
    }
  }

  lemma SurvivorProvenance(rows: seq<Transaction>)
    requires rows != []
    ensures forall f :: f in Project(OutlierFilter.RemoveOutliers(Aggregate(rows).value)) ==>
      exists id :: Describes(rows, id, f)
  {
    var cs := Aggregate(rows).value;
    var kept := OutlierFilter.RemoveOutliers(cs);
    SubsequenceMultiset(kept, cs);
    ProjectionProvenance(rows, kept);
  }

  lemma ProjectionProvenance(rows: seq<Transaction>, kept: seq<Customer>)
    requires rows != [] && multiset(kept) <= multiset(Aggregate(rows).value)
    ensures forall f :: f in Project(kept) ==> exists id :: Describes(rows, id, f)
  {
    var fs := Project(kept);
    forall f | f in fs
      ensures exists id :: Describes(rows, id, f)
    {
      var i :| 0 <= i < |fs| && fs[i] == f;
      var c := kept[i];
      assert c in multiset(Aggregate(rows).value);
      AggregateRow(rows, c);
    }
  }

  lemma AggregateRow(rows: seq<Transaction>, c: Customer)
    requires rows != [] && c in Aggregate(rows).value
    ensures Describes(rows, c.customerId, FeaturesOf(c))
  {
  }

  /** A frame row with the cluster label assigned to it. */
  datatype Segment = Segment(features: Features, cluster: int)

  /** Assigning a label array of the wrong length to a frame column fails. */
  datatype AttachError = LengthMismatch(rows: nat, labels: nat)

  /** Line 86: `segmented_df['Cluster'] = model.predict(scaled_df)`, matched by position. */
  function AttachClusters(fs: seq<Features>, labels: seq<int>): (r: Result<seq<Segment>, AttachError>)
    ensures r.Err? <==> |labels| != |fs|
    ensures r.Err? ==> r.error == LengthMismatch(|fs|, |labels|)
    ensures r.Ok? ==> |r.value| == |fs|
    ensures r.Ok? ==> forall i :: 0 <= i < |fs| ==> r.value[i].features == fs[i] && r.value[i].cluster == labels[i]
  {
    if |labels| != |fs| then Err(LengthMismatch(|fs|, |labels|))
    else Ok(seq(|fs|, i requires 0 <= i < |fs| => Segment(fs[i], labels[i])))
  }

  function FeatureColumn(ss: seq<Segment>): seq<Features>
  {
    seq(|ss|, i requires 0 <= i < |ss| => ss[i].features)
  }

  function ClusterColumn(ss: seq<Segment>): seq<int>
  {
    seq(|ss|, i requires 0 <= i < |ss| => ss[i].cluster)
  }

  /** Attaching labels loses nothing: the labelled frame splits back into the frame and the label array. */
  lemma AttachClustersRoundTrip(fs: seq<Features>, labels: seq<int>)
    requires |labels| == |fs|
    ensures AttachClusters(fs, labels).Ok?
    ensures FeatureColumn(AttachClusters(fs, labels).value) == fs
    ensures ClusterColumn(AttachClusters(fs, labels).value) == labels
  {
  }
}
