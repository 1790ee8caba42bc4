/**
 * `assets/ts/pages_entry_points/index.ts`: the state of the dashboard's root
 * Vue application: the filters the user picks, the map and tab choices, and
 * the species offered for selection.
 */
module IndexPage {
  import opened Wrappers

  /** A species as the species list endpoint describes it. */
  datatype SpeciesInformation = SpeciesInformation(
    id: int, scientificName: string, gbifTaxonKey: int, groupCode: string, categoryCode: string)

  /** An entry of the species selector. */
  datatype SelectionEntry = SelectionEntry(id: int, labelText: string)

  /** An option of the base layer selector. */
  datatype OptionForSelect = OptionForSelect(value: string, labelText: string)

  /** The filters object the root application starts with; dates are `null` until picked. */
  datatype DashboardFilters = DashboardFilters(speciesIds: seq<int>, startDate: Option<string>, endDate: Option<string>)

  /** `availableSpeciesAsEntries` on a species list: one entry per species, in order, labelled by scientific name. */
  function SpeciesAsEntries(species: seq<SpeciesInformation>): (entries: seq<SelectionEntry>)
    ensures |entries| == |species|
    ensures forall i :: 0 <= i < |species| ==>
      entries[i].id == species[i].id && entries[i].labelText == species[i].scientificName
  {
    seq(|species|, i requires 0 <= i < |species| => SelectionEntry(species[i].id, species[i].scientificName))
  }

  /** The root application's data (`RootAppData`). */
  class RootApp {
    var availableSpecies: seq<SpeciesInformation>
    var availableMapBaseLayers: seq<OptionForSelect>
    var mapBaseLayer: string
    var showRipariasArea: bool
    var selectedTab: string
    var availableTabs: seq<string>
    var filters: DashboardFilters
    var dataLayerOpacity: real

    /** The selected base layer and tab are among those the page offers. */
    predicate SelectionsOffered()
      reads this
    {
      && (exists i :: 0 <= i < |availableMapBaseLayers| && availableMapBaseLayers[i].value == mapBaseLayer)
      && selectedTab in availableTabs
    }

    /**
     * `data()`: no species yet, two base layers with `osmHot` selected, the map
     * tab selected, and filters with no species and no dates.
     */
    constructor ()
      ensures availableSpecies == []
      ensures availableMapBaseLayers == [OptionForSelect("toner", "Stamen Toner"), OptionForSelect("osmHot", "OSM HOT")]
      ensures mapBaseLayer == "osmHot" && showRipariasArea
      ensures selectedTab == "Map view" && availableTabs == ["Map view", "Table view"]
      ensures filters == DashboardFilters([], None, None)
      ensures dataLayerOpacity == 0.8
      ensures SelectionsOffered()
    {
      availableSpecies := [];
      availableMapBaseLayers := [OptionForSelect("toner", "Stamen Toner"), OptionForSelect("osmHot", "OSM HOT")];
      mapBaseLayer := "osmHot";
      showRipariasArea := true;
      selectedTab := "Map view";
      availableTabs := ["Map view", "Table view"];
      filters := DashboardFilters([], None, None);
      dataLayerOpacity := 0.8;
      new;
      assert availableMapBaseLayers[1].value == mapBaseLayer;
    }

    /** The computed `availableSpeciesAsEntries`. */
    function AvailableSpeciesAsEntries(): seq<SelectionEntry>
      reads this
    {
      SpeciesAsEntries(availableSpecies)
    }

    /** `changeSelectedSpecies`: the species filter is replaced wholesale; the dates and everything else stay. */
    method ChangeSelectedSpecies(speciesIds: seq<int>)
      modifies this`filters
      ensures filters.speciesIds == speciesIds
      ensures filters.startDate == old(filters.startDate) && filters.endDate == old(filters.endDate)
      ensures old(SelectionsOffered()) ==> SelectionsOffered()
    {
      filters := filters.(speciesIds := speciesIds);
    }
  }
}
