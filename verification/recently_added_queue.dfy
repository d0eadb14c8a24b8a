/** The older "recently added" playlist inside reader/Reader.kt: a priority
    queue of `(addDate, song)` pairs ordered newest first, drained from a
    copy on the first read after each cutoff change until an entry older
    than the cutoff comes out.

    The heap's order among entries with the same date is not specified, so
    the order in which a copy of the queue polls its entries is a parameter
    `polled`: any arrangement of the queue's entries whose dates never
    increase. */
module RecentlyAddedQueue {
  import opened Wrappers
  import opened Items

  /** A queue entry: the add date and the song. */
  type Entry = (int, Song)

  predicate NonIncreasing(q: seq<Entry>) {
    forall i, j :: 0 <= i < j < |q| ==> q[i].0 >= q[j].0
  }

  /** `polled` is an order in which the queue can hand out its entries. */
  ghost predicate IsPollOrder(polled: seq<Entry>, queue: seq<Entry>) {
    NonIncreasing(polled) && multiset(polled) == multiset(queue)
  }

  /** The drain loop: poll until the queue is empty or an entry older than
      the cutoff appears, which ends the loop without being added. */
  function Drain(polled: seq<Entry>, cutoff: int): (r: seq<Entry>)
    ensures |r| <= |polled| && r == polled[..|r|]
    ensures forall i :: 0 <= i < |r| ==> r[i].0 >= cutoff
    ensures |r| < |polled| ==> polled[|r|].0 < cutoff
  {
    if |polled| == 0 || polled[0].0 < cutoff then []
    else [polled[0]] + Drain(polled[1..], cutoff)
  }

  /** The reference: the entries dated at or after the cutoff, in queue
      order. */
  function AtLeast(q: seq<Entry>, cutoff: int): (r: seq<Entry>)
    ensures forall x :: multiset(r)[x] == if x.0 >= cutoff then multiset(q)[x] else 0
  {
    if |q| == 0 then []
    else
      assert q == [q[0]] + q[1..];
      (if q[0].0 >= cutoff then [q[0]] else []) + AtLeast(q[1..], cutoff)
  }

  /** The songs of a sequence of entries. */
  function Songs(entries: seq<Entry>): (r: seq<Song>)
    ensures |r| == |entries|
    ensures forall i :: 0 <= i < |entries| ==> r[i] == entries[i].1
  {
    seq(|entries|, i requires 0 <= i < |entries| => entries[i].1)
  }

  /** With nothing dated at or after the cutoff, nothing is kept. */
  lemma {:induction false} AtLeastNone(q: seq<Entry>, cutoff: int)
    requires forall i :: 0 <= i < |q| ==> q[i].0 < cutoff
    ensures AtLeast(q, cutoff) == []
  {
    if |q| > 0 {
      AtLeastNone(q[1..], cutoff);
    }
  }

  /** On a non-increasing sequence the drain stops exactly where the
      entries older than the cutoff begin, so it keeps what the filter
      keeps. */
  lemma {:induction false} DrainSorted(polled: seq<Entry>, cutoff: int)
    requires NonIncreasing(polled)
    ensures Drain(polled, cutoff) == AtLeast(polled, cutoff)
  {
    if |polled| > 0 {
      assert NonIncreasing(polled[1..]);
      if polled[0].0 < cutoff {
        AtLeastNone(polled[1..], cutoff);
      } else {
        DrainSorted(polled[1..], cutoff);
      }
    }
  }

  /** The view holds exactly the queued entries dated at or after the
      cutoff, each as often as it was queued, newest first. */
  lemma DrainContents(polled: seq<Entry>, queue: seq<Entry>, cutoff: int)
    requires IsPollOrder(polled, queue)
    ensures NonIncreasing(Drain(polled, cutoff))
    ensures multiset(Drain(polled, cutoff)) == multiset(AtLeast(queue, cutoff))
  {
    DrainSorted(polled, cutoff);
    AtLeastSameEntries(polled, queue, cutoff);
    PrefixNonIncreasing(polled, |Drain(polled, cutoff)|);
  }

  /** Filtering two arrangements of the same entries keeps the same
      entries. */
  lemma AtLeastSameEntries(a: seq<Entry>, b: seq<Entry>, cutoff: int)
    requires multiset(a) == multiset(b)
    ensures multiset(AtLeast(a, cutoff)) == multiset(AtLeast(b, cutoff))
  {
    assert forall x :: multiset(AtLeast(a, cutoff))[x] == multiset(AtLeast(b, cutoff))[x];
  }

  /** A prefix of a non-increasing sequence is non-increasing. */
  lemma PrefixNonIncreasing(q: seq<Entry>, n: nat)
    requires NonIncreasing(q) && n <= |q|
    ensures NonIncreasing(q[..n])
  {
  }

  /** The playlist object: the backing queue, the cutoff and the cached
      view (null until first read, and after each cutoff change). */
  datatype QueueList = QueueList(queue: seq<Entry>, minAddDate: int, cache: Option<seq<Song>>)

  /** A cached view is the drain for the current cutoff. */
  ghost predicate Valid(q: QueueList, polled: seq<Entry>) {
    && IsPollOrder(polled, q.queue)
    && (q.cache.Some? ==> q.cache.value == Songs(Drain(polled, q.minAddDate)))
  }

  /** The constructor: nothing is cached yet. */
  function New(minAddDate: int, queue: seq<Entry>): (r: QueueList)
    ensures r.queue == queue && r.minAddDate == minAddDate && r.cache.None?
    ensures forall polled :: IsPollOrder(polled, queue) ==> Valid(r, polled)
  {
    QueueList(queue, minAddDate, None)
  }

  /** The cutoff setter: a new value drops the cached view; the current
      value changes nothing. The queue itself is never touched. */
  function SetMinAddDate(q: QueueList, value: int): (r: QueueList)
    ensures r.queue == q.queue && r.minAddDate == value
    ensures value == q.minAddDate ==> r == q
    ensures value != q.minAddDate ==> r.cache.None?
    ensures forall polled :: Valid(q, polled) ==> Valid(r, polled)
  {
    if q.minAddDate != value then q.(minAddDate := value, cache := None) else q
  }

  /** The `songList` getter: drains a copy of the queue when nothing is
      cached, stores the result, and hands out a copy of the cached list.
      The queue and the cutoff are left as they were. */
  function GetSongList(q: QueueList, polled: seq<Entry>): (r: (seq<Song>, QueueList))
    requires Valid(q, polled)
    ensures r.0 == Songs(Drain(polled, q.minAddDate))
    ensures r.1.queue == q.queue && r.1.minAddDate == q.minAddDate
    ensures r.1.cache == Some(r.0)
    ensures Valid(r.1, polled)
  {
    match q.cache
    case Some(l) => (l, q)
    case None =>
      var l := Songs(Drain(polled, q.minAddDate));
      (l, q.(cache := Some(l)))
  }

  /** What a read returns: the songs of the queued entries dated at or
      after the cutoff, each as often as queued, newest first; a second read
      returns the same list. */
  lemma GetSongListContents(q: QueueList, polled: seq<Entry>)
    requires Valid(q, polled)
    ensures exists d :: && Songs(d) == GetSongList(q, polled).0
                        && NonIncreasing(d)
                        && multiset(d) == multiset(AtLeast(q.queue, q.minAddDate))
    ensures GetSongList(GetSongList(q, polled).1, polled).0 == GetSongList(q, polled).0
  {
    DrainContents(polled, q.queue, q.minAddDate);
    var d := Drain(polled, q.minAddDate);
    assert Songs(d) == GetSongList(q, polled).0;
  }
}
