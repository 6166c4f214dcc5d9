/** Heap objects and the references between them. */
module ImageObjects {

  type ObjectId = nat

  datatype Ref = Null | To(target: ObjectId)

  ghost predicate Distinct(objects: seq<ObjectId>) {
    forall i, j :: 0 <= i < j < |objects| ==> objects[i] != objects[j]
  }
}
