/**
 * The settings page (client/Settings.js): the plant list, the location, the holding conditions and
 * the weekly watering frequency, edited in place by the page's handlers and saved as a normalised
 * payload.
 */
module Settings {
  import opened Wrappers
  import opened Text

  /** `{ name, number }`; `number` is `None` when it is missing or `parseInt` gave `NaN`. */
  datatype Plant = Plant(name: string, number: Option<int>)

  /** The body `saveSettings` posts. */
  datatype SavedPlant = SavedPlant(name: string, number: int)
  datatype Payload = Payload(plants: seq<SavedPlant>, location: string, holdingConditions: string, wateringFrequency: int)

  /** What `/api/settings` answered; `None` for a key the answer does not have. */
  datatype Loaded = Loaded(plants: Option<seq<Plant>>, location: Option<string>,
                           holdingConditions: Option<string>, wateringFrequency: Option<int>)

  const MaxFrequency: int := 7

  /** `plant.number || 1`: a count that is missing, `NaN` or 0 is saved as 1. */
  function NumberOr1(number: Option<int>): (n: int)
    ensures n != 0
    ensures number.Some? && number.value != 0 ==> n == number.value
    ensures number.None? || number.value == 0 ==> n == 1
  {
    if number.Some? && number.value != 0 then number.value else 1
  }

  function SavedPlantOf(p: Plant): SavedPlant
  {
    SavedPlant(Trim(p.name), NumberOr1(p.number))
  }

  /** The `saveSettings` payload: trimmed texts, every count made truthy, the frequency as it is. */
  function PayloadOf(plants: seq<Plant>, location: string, holdingConditions: string, wateringFrequency: int): (p: Payload)
    ensures |p.plants| == |plants|
  {
    Payload(seq(|plants|, i requires 0 <= i < |plants| => SavedPlantOf(plants[i])),
            Trim(location), Trim(holdingConditions), wateringFrequency)
  }

  /** The answer the server gives back after storing a payload. */
  function Reloaded(p: Payload): Loaded
  {
    Loaded(Some(seq(|p.plants|, i requires 0 <= i < |p.plants| => Plant(p.plants[i].name, Some(p.plants[i].number)))),
           Some(p.location), Some(p.holdingConditions), Some(p.wateringFrequency))
  }

  class SettingsView {
    var plants: seq<Plant>
    var location: string
    var holdingConditions: string
    var wateringFrequency: int

    /** `oninit`: the defaults before anything is loaded. */
    constructor()
      ensures plants == [] && location == "" && holdingConditions == "" && wateringFrequency == 3
    {
      plants := [];
      location := "";
      holdingConditions := "";
      wateringFrequency := 3;
    }

    /** `loadData`: `{ ...settings, ...data }`; a key the answer has replaces the current value, the
        others stay; a failed request changes nothing. */
    method LoadData(response: Option<Loaded>)
      modifies this
      ensures response.None? ==>
                plants == old(plants) && location == old(location) &&
                holdingConditions == old(holdingConditions) && wateringFrequency == old(wateringFrequency)
      ensures response.Some? ==>
                plants == response.value.plants.GetOr(old(plants)) &&
                location == response.value.location.GetOr(old(location)) &&
                holdingConditions == response.value.holdingConditions.GetOr(old(holdingConditions)) &&
                wateringFrequency == response.value.wateringFrequency.GetOr(old(wateringFrequency))
    {
      if response.Some? {
        var data := response.value;
        if data.plants.Some? {
          plants := data.plants.value;
        }
        if data.location.Some? {
          location := data.location.value;
        }
        if data.holdingConditions.Some? {
          holdingConditions := data.holdingConditions.value;
        }
        if data.wateringFrequency.Some? {
          wateringFrequency := data.wateringFrequency.value;
        }
      }
    }

    /** The "-" button: one watering less per week while above 0. */
    method DecrementFrequency()
      modifies this
      ensures old(wateringFrequency) > 0 ==> wateringFrequency == old(wateringFrequency) - 1
      ensures old(wateringFrequency) <= 0 ==> wateringFrequency == old(wateringFrequency)
      ensures 0 <= old(wateringFrequency) <= MaxFrequency ==> 0 <= wateringFrequency <= MaxFrequency
      ensures plants == old(plants) && location == old(location) && holdingConditions == old(holdingConditions)
    {
      if wateringFrequency > 0 {
        wateringFrequency := wateringFrequency - 1;
      }
    }

    /** The "+" button: one watering more per week while below 7. */
    method IncrementFrequency()
      modifies this
      ensures old(wateringFrequency) < MaxFrequency ==> wateringFrequency == old(wateringFrequency) + 1
      ensures old(wateringFrequency) >= MaxFrequency ==> wateringFrequency == old(wateringFrequency)
      ensures 0 <= old(wateringFrequency) <= MaxFrequency ==> 0 <= wateringFrequency <= MaxFrequency
      ensures plants == old(plants) && location == old(location) && holdingConditions == old(holdingConditions)
    {
      if wateringFrequency < MaxFrequency {
        wateringFrequency := wateringFrequency + 1;
      }
    }

    /** "+ Neue Pflanze": an unnamed plant with count 1 at the end. */
    method AddPlant()
      modifies this
      ensures plants == old(plants) + [Plant("", Some(1))]
      ensures location == old(location) && holdingConditions == old(holdingConditions)
      ensures wateringFrequency == old(wateringFrequency)
    {
      plants := plants + [Plant("", Some(1))];
    }

    /** The "-" button of plant `index`: `splice(index, 1)`, which removes nothing past the end. */
    method RemovePlant(index: nat)
      modifies this
      ensures index < |old(plants)| ==> plants == old(plants)[..index] + old(plants)[index + 1..]
      ensures index >= |old(plants)| ==> plants == old(plants)
      ensures location == old(location) && holdingConditions == old(holdingConditions)
      ensures wateringFrequency == old(wateringFrequency)
    {
      if index < |plants| {
        plants := plants[..index] + plants[index + 1..];
      }
    }

    /** `saveSettings`: the payload it posts. */
    method SaveSettings() returns (payload: Payload)
      ensures payload == PayloadOf(plants, location, holdingConditions, wateringFrequency)
    {
      var saved: seq<SavedPlant> := [];
      var i := 0;
      while i < |plants|
        invariant 0 <= i <= |plants|
        invariant |saved| == i
        invariant forall j :: 0 <= j < i ==> saved[j] == SavedPlantOf(plants[j])
      {
        saved := saved + [SavedPlantOf(plants[i])];
        i := i + 1;
      }
      payload := Payload(saved, Trim(location), Trim(holdingConditions), wateringFrequency);
    }
  }

  // ---------------------------------------------------------------- what the payload promises

  /** Every saved plant is the plant at the same place, its name trimmed, its count 1 when falsy. */
  lemma PayloadPlants(plants: seq<Plant>, location: string, holdingConditions: string, wateringFrequency: int, i: nat)
    requires i < |plants|
    ensures var p := PayloadOf(plants, location, holdingConditions, wateringFrequency).plants[i];
            p.name == Trim(plants[i].name) && p.number != 0 &&
            (plants[i].number.None? || plants[i].number.value == 0 ==> p.number == 1) &&
            (plants[i].number.Some? && plants[i].number.value != 0 ==> p.number == plants[i].number.value)
  {
  }

  /** A plant saved once is saved again unchanged. */
  lemma SavedPlantAgain(p: Plant)
    ensures var sp := SavedPlantOf(p); SavedPlantOf(Plant(sp.name, Some(sp.number))) == sp
  {
    TrimIdempotent(p.name);
  }

  /** Saving what was loaded back after a save posts the same payload again, whatever the page
      held before: the normalisation is idempotent. */
  lemma SaveLoadSave(p: Payload, plants: seq<Plant>, location: string, holdingConditions: string, wateringFrequency: int)
    requires p == PayloadOf(plants, location, holdingConditions, wateringFrequency)
    ensures var back := Reloaded(p);
            PayloadOf(back.plants.value, back.location.value, back.holdingConditions.value,
                      back.wateringFrequency.value) == p
  {
    var back := Reloaded(p);
    var again := PayloadOf(back.plants.value, back.location.value, back.holdingConditions.value,
                           back.wateringFrequency.value);
    TrimIdempotent(location);
    TrimIdempotent(holdingConditions);
    forall i | 0 <= i < |p.plants| ensures again.plants[i] == p.plants[i] {
      SavedPlantAgain(plants[i]);
    }
    assert again.plants == p.plants;
  }

  /** Removing a plant keeps every other plant, in order. */
  lemma RemoveKeepsOthers(plants: seq<Plant>, index: nat, j: nat)
    requires index < |plants| && j < |plants| - 1
    ensures (plants[..index] + plants[index + 1..])[j] == (if j < index then plants[j] else plants[j + 1])
  {
  }
}
