/** Positions and great-circle distance (src/utils/geo.ts). */
module Geo {

  datatype LatLng = LatLng(lat: real, lng: real)

  /** haversineMeters, kept abstract: any non-negative function of two positions. */
  type Metric = f: (LatLng, LatLng) -> real | forall a, b :: f(a, b) >= 0.0
    witness (a, b) => 0.0
}
