/** Maps that are walked in the order in which their keys were first set. */
module OrderedMaps {

  datatype OrderedMap<K(==), V> = OrderedMap(order: seq<K>, entries: map<K, V>) {
    function Put(key: K, value: V): OrderedMap<K, V> {
      OrderedMap(if key in entries then order else order + [key], entries[key := value])
    }

    /** Every key is walked, once. */
    ghost predicate Sound() {
      && (forall key <- order :: key in entries) && (forall key <- entries :: key in order)
      && forall i, j :: 0 <= i < j < |order| ==> order[i] != order[j]
    }
  }
}
