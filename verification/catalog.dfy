/** The backend catalogs of `create_provider` (src/mainwindow/imp.rs): each
    backend id names an ordered list of metric properties, each a processor
    configuration, a formatter and a metric key, plus the provider-type tag. */
module Catalog {
  import opened Common
  import opened Text
  import opened Processing
  import opened Formatting

  /** `Property::new(processor, formatter, key)`. */
  datatype PropertyDef = PropertyDef(processor: Processor, formatter: Formatter, key: string)

  /** A provider as `create_provider` builds it: the provider-type tag and the
      property list. */
  datatype Provider = Provider(tag: int, properties: seq<PropertyDef>)

  /** The end fragment of the nvidia-smi style catalogs,
      " --format=csv,noheader -i ", written word by word. */
  const SmiEnd := " " + "--format=csv,noheader" + " " + "-i" + " "

  /** The start fragment of catalog 3, "nvidia-smi --query-gpu=". */
  const OptimusStart := "nvidia-smi" + " " + "--query-gpu="

  /** The end fragment of catalog 1, " -t". */
  const SettingsEnd := " " + "-t"

  const SmiFragments := Processor("nvidia-smi", "--query-gpu=", None, SmiEnd)
  const SettingsFragments := Processor("nvidia-settings", "-q=[gpu:", Some("]/"), SettingsEnd)
  const OptimusFragments := Processor("optirun", OptimusStart, None, SmiEnd)

  /** The nvidia-smi style property list shared by catalogs 0, 2, 3 and the
      fallback; the fallback copy has no "utilization.memory". */
  function SmiCatalog(p: Processor, converts: bool, withMemoryUtilization: bool): seq<PropertyDef>
  {
    [ PropertyDef(p, Identity, "gpu_name"),
      PropertyDef(p, Percentage, "utilization.gpu"),
      PropertyDef(p, Temperature(converts), "temperature.gpu"),
      PropertyDef(p, MemorySize, "memory.used"),
      PropertyDef(p, MemorySize, "memory.total") ]
    + (if withMemoryUtilization then [PropertyDef(p, Percentage, "utilization.memory")] else [])
    + [ PropertyDef(p, Percentage, "fan.speed"),
        PropertyDef(p, Power, "power.draw") ]
  }

  /** Catalog 1 (nvidia-settings). */
  const SettingsCatalog := [
    PropertyDef(SettingsFragments, UtilizationField(0), "GPUUtilization.gpu"),
    PropertyDef(SettingsFragments, Temperature(false), "GPUCoreTemp"),
    PropertyDef(SettingsFragments, MemorySize, "UsedDedicatedGPUMemory"),
    PropertyDef(SettingsFragments, MemorySize, "TotalDedicatedGPUMemory"),
    PropertyDef(SettingsFragments, UtilizationField(1), "GPUUtilization.mem")
  ]

  /** The metric keys of a property list, in order. */
  function Keys(props: seq<PropertyDef>): (r: seq<string>)
    ensures |r| == |props|
    ensures forall i :: 0 <= i < |props| ==> r[i] == props[i].key
  {
    if props == [] then [] else [props[0].key] + Keys(props[1..])
  }

  predicate Distinct(xs: seq<string>)
  {
    forall i, j :: 0 <= i < j < |xs| ==> xs[i] != xs[j]
  }

  /** `create_provider(provider_type)`: ids 0 to 3 select their catalog and
      tag; any other id falls back to an nvidia-smi catalog tagged 0. Every
      property of a catalog shares its command fragments, and only catalog 0
      returns the Fahrenheit conversion. */
  function CreateProvider(id: int): (r: Provider)
    ensures r.tag == (if 0 <= id <= 3 then id else 0)
    ensures forall i :: 0 <= i < |r.properties| ==>
              r.properties[i].processor ==
                (if id == 1 then SettingsFragments else if id == 3 then OptimusFragments else SmiFragments)
    ensures forall i :: 0 <= i < |r.properties| && r.properties[i].formatter.Temperature? ==>
              (r.properties[i].formatter.converts <==> id == 0)
  {
    match id
    case 0 => Provider(0, SmiCatalog(SmiFragments, true, true))
    case 1 => Provider(1, SettingsCatalog)
    case 2 => Provider(2, SmiCatalog(SmiFragments, false, true))
    case 3 => Provider(3, SmiCatalog(OptimusFragments, false, true))
    case _ => Provider(0, SmiCatalog(SmiFragments, false, false))
  }

  const SmiKeys := ["gpu_name", "utilization.gpu", "temperature.gpu", "memory.used",
                    "memory.total", "utilization.memory", "fan.speed", "power.draw"]
  const FallbackKeys := ["gpu_name", "utilization.gpu", "temperature.gpu", "memory.used",
                         "memory.total", "fan.speed", "power.draw"]
  const SettingsKeys := ["GPUUtilization.gpu", "GPUCoreTemp", "UsedDedicatedGPUMemory",
                         "TotalDedicatedGPUMemory", "GPUUtilization.mem"]

  /** The metric keys of every catalog, in order. */
  lemma CatalogKeys(id: int)
    ensures Keys(CreateProvider(id).properties) ==
              if id == 1 then SettingsKeys else if 0 <= id <= 3 then SmiKeys else FallbackKeys
  {
    var props := CreateProvider(id).properties;
    if id == 1 {
      SettingsCatalogKeys();
    } else {
      SmiCatalogKeys(props[0].processor, props[2].formatter.converts, 0 <= id <= 3);
    }
  }

  /** The keys of the nvidia-smi style list, with and without
      "utilization.memory". */
  lemma SmiCatalogKeys(p: Processor, converts: bool, withMemoryUtilization: bool)
    ensures Keys(SmiCatalog(p, converts, withMemoryUtilization)) ==
              if withMemoryUtilization then SmiKeys else FallbackKeys
  {
    var props := SmiCatalog(p, converts, withMemoryUtilization);
    var ks := Keys(props);
    var want := if withMemoryUtilization then SmiKeys else FallbackKeys;
    assert |ks| == |want|;
    forall i | 0 <= i < |ks| ensures ks[i] == want[i] {
      assert ks[i] == props[i].key;
    }
  }

  /** The keys of the nvidia-settings list. */
  lemma SettingsCatalogKeys()
    ensures Keys(SettingsCatalog) == SettingsKeys
  {
    var ks := Keys(SettingsCatalog);
    assert |ks| == |SettingsKeys|;
    forall i | 0 <= i < |ks| ensures ks[i] == SettingsKeys[i] {
      assert ks[i] == SettingsCatalog[i].key;
    }
  }

  /** The nvidia-smi keys are distinct and space-free. */
  lemma SmiKeysWellFormed()
    ensures Distinct(SmiKeys) && Distinct(FallbackKeys)
    ensures forall k | k in SmiKeys :: ' ' !in k
    ensures FallbackKeys == SmiKeys[..5] + SmiKeys[6..]
  {
    assert SmiKeys[1][0] != SmiKeys[2][0];
  }

  /** The nvidia-settings keys are distinct and space-free. */
  lemma SettingsKeysWellFormed()
    ensures Distinct(SettingsKeys)
    ensures forall k | k in SettingsKeys :: ' ' !in k
  {
    assert SettingsKeys[0][15] != SettingsKeys[4][15];
  }

  /** Catalogs 0, 1, 2, 3 hold 8, 5, 8 and 8 distinct metrics; the fallback
      holds 7 and is the only nvidia-smi catalog without
      "utilization.memory". */
  lemma CatalogSizes(id: int)
    ensures |CreateProvider(id).properties| ==
              if id == 1 then 5 else if 0 <= id <= 3 then 8 else 7
    ensures Distinct(Keys(CreateProvider(id).properties))
    ensures "utilization.memory" in Keys(CreateProvider(id).properties) <==> id == 0 || id == 2 || id == 3
  {
    CatalogKeys(id);
    SmiKeysWellFormed();
    SettingsKeysWellFormed();
    var ks := Keys(CreateProvider(id).properties);
    if id == 1 {
      assert forall k | k in SettingsKeys :: |k| != 18 || k[0] == 'G';
    } else if !(0 <= id <= 3) {
      assert SmiKeys[5] == "utilization.memory";
      assert forall j | 0 <= j < 7 :: FallbackKeys[j] != SmiKeys[5];
    } else {
      assert ks[5] == "utilization.memory";
    }
  }

  /** No metric key contains a space, so a key never splits an argument. */
  lemma KeysHaveNoSpace(id: int, i: nat)
    requires i < |CreateProvider(id).properties|
    ensures ' ' !in CreateProvider(id).properties[i].key
  {
    CatalogKeys(id);
    SmiKeysWellFormed();
    SettingsKeysWellFormed();
    var ks := Keys(CreateProvider(id).properties);
    assert ks[i] == CreateProvider(id).properties[i].key;
    assert ks[i] in ks;
  }
}
