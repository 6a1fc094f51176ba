// The name-keyed model banks of Skateboard/Renderer/MeshletEngine/MeshEngine.cpp.
// MeshletBank and MeshBank are the same registry over two model types; both
// are the class ModelBank here, a model being known by its identity.
module MeshEngine {

  datatype Option<T> = None | Some(value: T)

  /** A model object (MeshletModel or Model), known by its identity. */
  type ModelRef = nat

  /**
   * A registry from names to models. released lists, in order, the models
   * whose Release was called when they left the registry.
   */
  class ModelBank {
    var models: map<string, ModelRef>
    var released: seq<ModelRef>

    constructor ()
      ensures models == map[] && released == []
    {
      models := map[];
      released := [];
    }

    /** Get: no model for an absent name, the stored one otherwise. */
    function Get(name: string): (r: Option<ModelRef>)
      reads this
      ensures r.Some? <==> name in models
      ensures r.Some? ==> r.value == models[name]
    {
      if name !in models then None else Some(models[name])
    }

    /** Contains: whether the name is registered. */
    function Contains(name: string): (b: bool)
      reads this
      ensures b <==> Get(name).Some?
    {
      name in models
    }

    /**
     * AddMeshletModel / AddModel: a new name is registered with the model and
     * the caller's unique_ptr is moved from (taken); an existing name keeps
     * the model it has, the caller keeps its pointer, and the existing model
     * is answered. Either way the answer is what Get now gives for the name,
     * and no other name changes.
     */
    method Add(name: string, model: ModelRef) returns (r: ModelRef, taken: bool)
      modifies this`models
      ensures taken <==> name !in old(models)
      ensures models == if taken then old(models)[name := model] else old(models)
      ensures r == if taken then model else old(models)[name]
      ensures Get(name) == Some(r)
      ensures forall other :: other != name ==> Get(other) == old(Get(other))
    {
      if name in models {
        r, taken := models[name], false;
        return;
      }
      models := models[name := model];
      r, taken := models[name], true;
    }

    /**
     * ReleaseModel: false with nothing changed for an absent name; otherwise
     * the model is released, its entry erased, and true is answered.
     */
    method ReleaseModel(name: string) returns (ok: bool)
      modifies this
      ensures ok <==> old(Contains(name))
      ensures ok ==> models == old(models) - {name} && released == old(released) + [old(models)[name]]
      ensures !ok ==> models == old(models) && released == old(released)
      ensures !Contains(name)
    {
      if name !in models {
        return false;
      }
      var model := models[name];
      released := released + [model];
      models := models - {name};
      return true;
    }
  }

  /** Adding and then releasing a new name gives back the registry it started from. */
  lemma AddThenReleaseRestores(models: map<string, ModelRef>, name: string, model: ModelRef)
    requires name !in models
    ensures models[name := model] - {name} == models
  {
    assert forall n :: n in models[name := model] - {name} <==> n in models;
  }
}
