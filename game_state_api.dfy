/** GameStateService: the in-memory table of saved game states. */
module GameStateApi {
  import opened Records

  const NotFound := "Game state not found"

  /**
   * The service's static `data` array, changed in place by its operations.
   * The artificial network delay is not modelled; timestamps and the
   * `Date.now()` id are passed in.
   */
  class GameStateService {
    var data: seq<Record>

    /** `static data = [...gameStateData]` */
    constructor (seed: seq<Record>)
      ensures data == seed
    {
      data := seed;
    }

    method GetAll() returns (all: seq<Record>)
      ensures all == data
    {
      all := data;
    }

    method GetById(id: int) returns (item: Option<Record>)
      ensures item == Lookup(data, id)
    {
      var index := FindIndex(data, id);
      item := if index == -1 then None else Some(data[index]);
    }

    method Create(fields: Record, id: int, createdAt: string) returns (created: Record)
      modifies this
      ensures created == Stamped(fields, id, createdAt)
      ensures data == old(data) + [created]
    {
      created := Stamped(fields, id, createdAt);
      data := data + [created];
    }

    method Update(id: int, updates: Record, updatedAt: string) returns (result: Result<Record>)
      modifies this
      ensures data == Updated(old(data), id, updates, updatedAt)
      ensures FirstIndexOf(old(data), id) == -1 <==> result == Err(NotFound)
      ensures result.Ok? ==> result.value == data[FirstIndexOf(old(data), id)]
    {
      var index := FindIndex(data, id);
      if index != -1 {
        data := data[index := Merged(data[index], updates, updatedAt)];
        return Ok(data[index]);
      }
      return Err(NotFound);
    }

    method Delete(id: int) returns (result: Result<Record>)
      modifies this
      ensures data == Deleted(old(data), id)
      ensures FirstIndexOf(old(data), id) == -1 <==> result == Err(NotFound)
      ensures result.Ok? ==> result.value == old(data)[FirstIndexOf(old(data), id)]
    {
      var index := FindIndex(data, id);
      if index != -1 {
        var deleted := data[index];
        data := data[..index] + data[index + 1..];
        return Ok(deleted);
      }
      return Err(NotFound);
    }

    /**
     * Copies a saved high score into the first record. `saved` is the
     * stored value once read and parsed, None when nothing was stored.
     */
    method InitializeHighScore(saved: Option<int>)
      modifies this
      ensures saved.Some? && |old(data)| > 0 ==>
                data == old(data)[0 := old(data)[0]["highScore" := Num(saved.value)]]
      ensures saved.None? || |old(data)| == 0 ==> data == old(data)
    {
      if saved.Some? && |data| > 0 {
        data := data[0 := data[0]["highScore" := Num(saved.value)]];
      }
    }
  }
}
