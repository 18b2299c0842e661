/** The public listing types of client/src/lib/types/property.ts and the
    sample listings of client/src/lib/data/properties.ts that the public
    pages filter. Descriptions and image URLs are not represented. */
module Listings {

  /** An inclusive `{ min, max }` range. */
  datatype Range = Range(min: real, max: real)

  /** `PropertyFilters`: an empty string leaves that criterion open. */
  datatype Filters = Filters(
    kind: string,
    listingType: string,
    location: string,
    propertySubtype: string,
    priceRange: Range,
    surfaceRange: Range)

  /** `Property`, as far as the filters look at it. */
  datatype Listing = Listing(
    id: string,
    kind: string,
    listingType: string,
    title: string,
    location: string,
    state: string,
    propertySubtype: string,
    price: real,
    surface: real)

  const SampleProperties: seq<Listing> := [
    Listing("1", "industrial", "sale", "Nave Industrial Moderna", "Parque Industrial Querétaro",
            "Querétaro", "warehouse", 15000000.0, 2500.0),
    Listing("2", "industrial", "rent", "Edificio Corporativo", "Santa Fe",
            "México", "office", 250000.0, 1500.0),
    Listing("3", "residential", "sale", "Casa Residencial", "San Pedro Garza García",
            "Nuevo León", "house", 8500000.0, 450.0),
    Listing("4", "residential", "rent", "Departamento Moderno", "Polanco",
            "México", "apartment", 35000.0, 120.0)
  ]

  const IndustrialSubtypes: seq<string> := ["building", "warehouse", "lot", "macrolot", "retail", "office", "modular"]
  const ResidentialSubtypes: seq<string> := ["land", "lot", "house", "apartment", "prefab"]
}
