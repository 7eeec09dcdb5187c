/** The closed set of services the application requests. */
module Endpoints {
  import ServiceDescriptors
  import PokeApiService
  import FunTranslationService

  datatype Service =
    | PokeApi(api: PokeApiService.PokeApiService)
    | FunTranslation(translation: FunTranslationService.FunTranslationService)

  function Descriptor(service: Service): ServiceDescriptors.ServiceDescriptor {
    match service
    case PokeApi(api) => PokeApiService.Descriptor(api)
    case FunTranslation(t) => FunTranslationService.Descriptor(t)
  }
}
