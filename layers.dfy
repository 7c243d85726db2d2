/**
 * A map layer, reduced to what the core reads from it: its identity, its
 * display name, its provider type and the host of its source URL (already
 * decoded from the layer's data source). Its extent and CRS enter the model
 * only through the intersection predicate of an enumeration request.
 */
module Layers {

  datatype Layer = Layer(id: nat, name: string, providerType: string, host: string)
}
