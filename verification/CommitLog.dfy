/** The order in which transactions committed, with the change each of them made. */
module CommitLog {

  type TxId = nat

  datatype Entry<+O> = Entry(tx: TxId, op: O)

  function Ops<O>(log: seq<Entry<O>>): (ops: seq<O>)
    ensures |ops| == |log| && forall i :: 0 <= i < |log| ==> ops[i] == log[i].op
  {
    seq(|log|, i requires 0 <= i < |log| => log[i].op)
  }

  /** The log lists each committed transaction once, with its change, and nothing else. */
  ghost predicate Lists<O(!new)>(log: seq<Entry<O>>, committed: map<TxId, O>) {
    && (forall i :: 0 <= i < |log| ==> log[i].tx in committed && log[i].op == committed[log[i].tx])
    && (forall i, j :: 0 <= i < j < |log| ==> log[i].tx != log[j].tx)
    && (forall t :: t in committed ==> exists i :: 0 <= i < |log| && log[i].tx == t)
  }

  lemma ListsOneMore<O(!new)>(log: seq<Entry<O>>, committed: map<TxId, O>, t: TxId, op: O)
    requires Lists(log, committed) && t !in committed
    ensures Lists(log + [Entry(t, op)], committed[t := op])
  {
    var log' := log + [Entry(t, op)];
    assert log'[|log|].tx == t;
    forall k | k in committed ensures exists i :: 0 <= i < |log'| && log'[i].tx == k {
      var i :| 0 <= i < |log| && log[i].tx == k;
      assert log'[i].tx == k;
    }
  }
}
